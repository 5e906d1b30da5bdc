// Reaggregation as the source does it: in place, on a slice of references to data points.
module PointSlices {
  import opened Attributes
  import opened DataPoints
  import Enforcement
  import opened Hashing
  import opened Reaggregation

  class NumberDataPoint {
    var attrs: Attrs
    var value: Number
    var timestamp: nat
    var start: nat
    var exemplars: seq<Exemplar>

    constructor (p: Point)
      ensures View() == p
    {
      attrs, value, timestamp, start, exemplars := p.attrs, p.value, p.timestamp, p.start, p.exemplars;
    }

    function View(): Point
      reads this
    {
      Point(attrs, value, timestamp, start, exemplars)
    }

    // What handleAttributes does after its callback loop: tag, then overwrite the flagged values.
    method ApplyDeferred(kept: Attrs, shouldTag: bool, overflowKeys: seq<string>)
      modifies `attrs
      ensures attrs == Enforcement.Postponed(kept, shouldTag, overflowKeys)
    {
      attrs := kept;
      if shouldTag {
        attrs := Enforcement.Put(attrs, Enforcement.OVERFLOW_TAG, Bool(true));
      }
      ghost var tagged := attrs;
      for i := 0 to |overflowKeys|
        invariant attrs == Enforcement.PutAll(tagged, overflowKeys[..i], Str(Enforcement.OVERFLOW_SENTINEL))
      {
        assert overflowKeys[..i + 1][..i] == overflowKeys[..i];
        attrs := Enforcement.Put(attrs, overflowKeys[i], Str(Enforcement.OVERFLOW_SENTINEL));
      }
      assert overflowKeys[..|overflowKeys|] == overflowKeys;
    }

    // `copyNumberValue`: from `this` into `dst`.
    method CopyNumberValue(dst: NumberDataPoint)
      modifies dst`value
      ensures dst.value == CopyNumber(old(value), old(dst.value))
    {
      match value
      case Int(i) => dst.value := Int(i);
      case Double(d) => dst.value := Double(d);
      case Empty =>
    }

    // `addNumberValue`: `this` into `dst`.
    method AddNumberValue(floats: Floats, dst: NumberDataPoint)
      modifies dst`value
      ensures dst.value == AddNumber(floats, old(value), old(dst.value))
    {
      if value.Int? && dst.value.Int? {
        dst.value := Int(Plus(dst.value.i, value.i));
      } else if value.Double? && dst.value.Double? {
        dst.value := Double(floats.add(dst.value.d, value.d));
      } else {
        var srcVal := ToDouble(floats, value);
        var dstVal := ToDouble(floats, dst.value);
        dst.value := Double(floats.add(dstVal, srcVal));
      }
    }

    method MoveExemplarsTo(dst: NumberDataPoint)
      requires dst != this
      modifies `exemplars, dst`exemplars
      ensures dst.exemplars == old(dst.exemplars) + old(exemplars)
      ensures exemplars == []
    {
      dst.exemplars := dst.exemplars + exemplars;
      exemplars := [];
    }

    // The loop body of phase 2: merge `this` into its leader.
    method MergeInto(rule: Rule, leader: NumberDataPoint)
      requires leader != this
      modifies this`exemplars, leader
      ensures leader.View() == Merge(rule, old(leader.View()), old(View()))
    {
      if rule.metricType == Gauge {
        if timestamp > leader.timestamp {
          CopyNumberValue(leader);
          leader.timestamp := timestamp;
          if start > 0 {
            leader.start := start;
          }
        }
        MoveExemplarsTo(leader);
      } else if rule.metricType == Sum && rule.isDelta {
        AddNumberValue(rule.floats, leader);
        if timestamp > leader.timestamp {
          leader.timestamp := timestamp;
        }
        if start < leader.start {
          leader.start := start;
        }
        MoveExemplarsTo(leader);
      }
    }
  }

  // Which points keep their place: those whose hash has not occurred before.
  ghost predicate Leads(h: Hasher, ps: seq<Point>, i: nat) {
    i < |ps| && h(ps[i].attrs) !in Order(h, ps[..i])
  }

  ghost function Leaders(h: Hasher, ps: seq<Point>): (at: seq<nat>)
    ensures forall j :: 0 <= j < |at| ==> at[j] < |ps|
  {
    if ps == [] then [] else
    var n := |ps| - 1;
    Leaders(h, ps[..n]) + if h(ps[n].attrs) in Order(h, ps[..n]) then [] else [n]
  }

  ghost function Pick<T>(s: seq<T>, at: seq<nat>): (r: seq<T>)
    requires forall j :: 0 <= j < |at| ==> at[j] < |s|
    ensures |r| == |at|
    ensures forall j :: 0 <= j < |at| ==> r[j] == s[at[j]]
  {
    seq(|at|, j requires 0 <= j < |at| => s[at[j]])
  }

  lemma {:induction false} LeadersMatchOrder(h: Hasher, ps: seq<Point>)
    ensures |Leaders(h, ps)| == |Order(h, ps)|
    ensures forall j :: 0 <= j < |Order(h, ps)| ==>
      var i := Leaders(h, ps)[j];
      i < |ps| && h(ps[i].attrs) == Order(h, ps)[j] && Leads(h, ps, i)
    ensures forall j, j' :: 0 <= j < j' < |Leaders(h, ps)| ==> Leaders(h, ps)[j] < Leaders(h, ps)[j']
  {
    if ps != [] {
      var n := |ps| - 1;
      LeadersMatchOrder(h, ps[..n]);
      forall i | 0 <= i < n ensures ps[..n][..i] == ps[..i] {
      }
    }
  }

  lemma {:induction false} OccursInOrder(h: Hasher, ps: seq<Point>, x: Hash)
    ensures x in Order(h, ps) <==> exists i :: 0 <= i < |ps| && h(ps[i].attrs) == x
  {
    if ps != [] {
      OccursInOrder(h, ps[..|ps| - 1], x);
    }
  }

  // The survivors are exactly the first occurrences of their hash.
  lemma LeadsMeansFirst(h: Hasher, ps: seq<Point>, i: nat)
    requires i < |ps|
    ensures Leads(h, ps, i) <==> forall j :: 0 <= j < i ==> h(ps[j].attrs) != h(ps[i].attrs)
  {
    OccursInOrder(h, ps[..i], h(ps[i].attrs));
  }

  // If every leader holds the fold of its group, the leaders in order are the group-by.
  lemma PickedIsGroupBy(rule: Rule, h: Hasher, ps: seq<Point>, merged: seq<Point>)
    requires |merged| == |ps|
    requires forall i: nat :: Leads(h, ps, i) ==> Gathered(rule, Members(h, ps, h(ps[i].attrs)), i, merged)
    ensures Pick(merged, Leaders(h, ps)) == GroupBy(rule, h, ps)
  {
    LeadersMatchOrder(h, ps);
    forall j | 0 <= j < |Order(h, ps)| ensures merged[Leaders(h, ps)[j]] == GroupBy(rule, h, ps)[j] {
      GroupByAt(rule, h, ps, j);
      assert Leads(h, ps, Leaders(h, ps)[j]);
    }
  }

  // Phase 2 after the first `i` points. The points merged away are marked:
  ghost predicate Marked(h: Hasher, ps: seq<Point>, i: nat, remove: set<nat>) {
    && (forall k :: k in remove ==> k < i)
    && (forall k: nat :: k < i ==> (k in remove <==> !Leads(h, ps, k)))
  }

  // ... `seen` has the leader of every hash met so far:
  ghost predicate Seen(h: Hasher, ps: seq<Point>, i: nat, seen: map<Hash, nat>)
    requires i <= |ps|
  {
    && (forall x :: x in seen <==> x in Order(h, ps[..i]))
    && (forall x :: x in seen ==> 0 <= seen[x] < i && h(ps[seen[x]].attrs) == x)
    && (forall k: nat :: k < i && Leads(h, ps, k) ==> h(ps[k].attrs) in seen && seen[h(ps[k].attrs)] == k)
  }

  // ... and of the points as they stand, `now`, each leader holds the fold of its group so far.
  ghost predicate Folded(rule: Rule, h: Hasher, ps: seq<Point>, i: nat, seen: map<Hash, nat>, now: seq<Point>)
    requires i <= |ps|
  {
    && |now| == |ps|
    && (forall k :: i <= k < |ps| ==> now[k] == ps[k])
    && (forall x :: x in seen ==> Gathered(rule, Members(h, ps[..i], x), seen[x], now))
  }

  ghost predicate Gathered(rule: Rule, group: seq<Point>, k: nat, now: seq<Point>) {
    k < |now| && group != [] && now[k] == Fold(rule, group)
  }

  lemma MembersAdvance(h: Hasher, ps: seq<Point>, i: nat, x: Hash)
    requires i < |ps|
    ensures
      var group := Members(h, ps[..i], x);
      Members(h, ps[..i + 1], x) == if h(ps[i].attrs) == x then group + [ps[i]] else group
  {
    assert ps[..i + 1] == ps[..i] + [ps[i]];
    MembersSnoc(h, ps[..i], ps[i], x);
  }

  lemma OrderAdvance(h: Hasher, ps: seq<Point>, i: nat)
    requires i < |ps|
    ensures Order(h, ps[..i + 1]) == Order(h, ps[..i]) + if Leads(h, ps, i) then [h(ps[i].attrs)] else []
  {
    assert ps[..i + 1] == ps[..i] + [ps[i]];
    OrderSnoc(h, ps[..i], ps[i]);
  }

  lemma SeenAdvance(h: Hasher, ps: seq<Point>, i: nat, seen: map<Hash, nat>)
    requires i < |ps| && Seen(h, ps, i, seen)
    ensures
      var x := h(ps[i].attrs);
      && (if x in seen then !Leads(h, ps, i) && seen[x] < i else Leads(h, ps, i))
      && Seen(h, ps, i + 1, if x in seen then seen else seen[x := i])
  {
    hide Order;
    OrderAdvance(h, ps, i);
  }

  lemma FoldedLeader(rule: Rule, h: Hasher, ps: seq<Point>, i: nat, seen: map<Hash, nat>, now: seq<Point>)
    requires i < |ps| && Seen(h, ps, i, seen) && Folded(rule, h, ps, i, seen, now)
    requires h(ps[i].attrs) !in seen
    ensures Folded(rule, h, ps, i + 1, seen[h(ps[i].attrs) := i], now)
  {
    hide Order, Members;
    var y := h(ps[i].attrs);
    var seen' := seen[y := i];
    forall x | x in seen' ensures Gathered(rule, Members(h, ps[..i + 1], x), seen'[x], now) {
      MembersAdvance(h, ps, i, x);
      if x == y {
        OrderMembers(h, ps[..i], y);
        assert [] + [ps[i]] == [ps[i]];
      } else {
        assert Gathered(rule, Members(h, ps[..i], x), seen[x], now);
      }
    }
  }

  lemma FoldedMember(rule: Rule, h: Hasher, ps: seq<Point>, i: nat,
                     seen: map<Hash, nat>, now: seq<Point>, now': seq<Point>)
    requires i < |ps| && Seen(h, ps, i, seen) && Folded(rule, h, ps, i, seen, now)
    requires h(ps[i].attrs) in seen
    requires |now'| == |now|
    requires
      var l := seen[h(ps[i].attrs)];
      && now'[l] == Merge(rule, now[l], now[i])
      && forall k :: 0 <= k < |now| && k != l && k != i ==> now'[k] == now[k]
    ensures Folded(rule, h, ps, i + 1, seen, now')
  {
    hide Order, Members, Merge, Fold;
    forall x | x in seen ensures Gathered(rule, Members(h, ps[..i + 1], x), seen[x], now') {
      MembersAdvance(h, ps, i, x);
      assert Gathered(rule, Members(h, ps[..i], x), seen[x], now);
      if h(ps[i].attrs) == x {
        FoldSnoc(rule, Members(h, ps[..i], x), ps[i]);
      }
    }
  }

  lemma MergingStarts(rule: Rule, h: Hasher, ps: seq<Point>)
    ensures Seen(h, ps, 0, map[]) && Folded(rule, h, ps, 0, map[], ps)
  {
  }

  lemma MergingEnds(rule: Rule, h: Hasher, ps: seq<Point>, seen: map<Hash, nat>, now: seq<Point>)
    requires Seen(h, ps, |ps|, seen) && Folded(rule, h, ps, |ps|, seen, now)
    ensures forall i: nat :: Leads(h, ps, i) ==> Gathered(rule, Members(h, ps, h(ps[i].attrs)), i, now)
  {
    assert ps[..|ps|] == ps;
    forall i: nat | Leads(h, ps, i) ensures Gathered(rule, Members(h, ps, h(ps[i].attrs)), i, now) {
      assert seen[h(ps[i].attrs)] == i;
    }
  }

  class NumberDataPointSlice {
    var items: seq<NumberDataPoint>

    constructor (items: seq<NumberDataPoint>)
      ensures this.items == items
    {
      this.items := items;
    }

    ghost predicate Valid()
      reads this
    {
      forall i, j :: 0 <= i < j < |items| ==> items[i] != items[j]
    }

    ghost function View(): (ps: seq<Point>)
      reads this, items
      ensures |ps| == |items|
    {
      Views(items)
    }

    // Phase 1: hash every point and look for a hash seen before.
    method DetectCollisions(xx: StringHash) returns (hashes: seq<Hash>, collisions: bool)
      ensures |hashes| == |items|
      ensures forall i :: 0 <= i < |items| ==> hashes[i] == AttrHash(xx)(View()[i].attrs)
      ensures !collisions ==> DistinctHashes(AttrHash(xx), View())
    {
      hide IdentityHash;
      hashes, collisions := [], false;
      var seen: map<Hash, nat> := map[];
      for i := 0 to |items|
        invariant |hashes| == i
        invariant forall j :: 0 <= j < i ==> hashes[j] == AttrHash(xx)(items[j].attrs) && hashes[j] in seen
        invariant forall x :: x in seen ==> x in hashes
        invariant !collisions ==> forall j, k :: 0 <= j < k < i ==> hashes[j] != hashes[k]
      {
        var h := HashAttributes(xx, items[i].attrs);
        hashes := hashes + [h];
        if h in seen {
          collisions := true;
        } else {
          seen := seen[h := i];
        }
      }
    }

    // Phase 2: merge every later member of a group into its leader, and mark it.
    method MergeGroups(rule: Rule, hashes: seq<Hash>, ghost h: Hasher) returns (remove: set<nat>)
      requires Valid() && |hashes| == |items|
      requires forall i :: 0 <= i < |items| ==> hashes[i] == h(View()[i].attrs)
      modifies items
      ensures forall i :: 0 <= i < |items| ==> (i in remove <==> !Leads(h, old(View()), i))
      ensures forall i: nat :: Leads(h, old(View()), i) ==>
        Gathered(rule, Members(h, old(View()), h(old(View())[i].attrs)), i, View())
    {
      hide Folded, Seen, Leads, Members, Fold, Merge;
      ghost var ps := View();
      remove := {};
      var seen: map<Hash, nat> := map[];
      MergingStarts(rule, h, ps);
      for i := 0 to |items|
        invariant Marked(h, ps, i, remove) && Seen(h, ps, i, seen)
        invariant Folded(rule, h, ps, i, seen, View())
      {
        ghost var now := View();
        var x := hashes[i];
        SeenAdvance(h, ps, i, seen);
        if x in seen {
          var leader, current := items[seen[x]], items[i];
          current.MergeInto(rule, leader);
          FoldedMember(rule, h, ps, i, seen, now, View());
          remove := remove + {i};
        } else {
          FoldedLeader(rule, h, ps, i, seen, now);
          seen := seen[x := i];
        }
      }
      MergingEnds(rule, h, ps, seen, View());
    }

    // Phase 3: compact the slice, dropping the marked positions.
    method RemoveMarked(remove: set<nat>, ghost h: Hasher, ghost ps: seq<Point>)
      requires |ps| == |items|
      requires forall i :: 0 <= i < |ps| ==> (i in remove <==> !Leads(h, ps, i))
      modifies this
      ensures items == Pick(old(items), Leaders(h, ps))
    {
      ghost var was := items;
      var kept, idx := 0, 0;
      while idx < |items|
        invariant kept <= idx <= |items| == |was|
        invariant items[..kept] == Pick(was, Leaders(h, ps[..idx]))
        invariant items[idx..] == was[idx..]
      {
        assert ps[..idx + 1][..idx] == ps[..idx];
        assert items[idx] == was[idx];
        if idx !in remove {
          items := items[kept := items[idx]];
          kept := kept + 1;
        }
        idx := idx + 1;
      }
      assert ps[..idx] == ps;
      items := items[..kept];
    }

    // `reaggregateNumberDataPoints`: the slice becomes the group-by of what it was, held by the very
    // objects that came first in their group.
    method Reaggregate(rule: Rule, xx: StringHash)
      requires Valid()
      modifies this, items
      ensures Valid()
      ensures View() == GroupBy(rule, AttrHash(xx), old(View()))
      ensures items == Pick(old(items), Leaders(AttrHash(xx), old(View())))
    {
      hide Merge, Fold, Members, Order, Leaders, GroupBy;
      ghost var h, ps := AttrHash(xx), View();
      if |items| <= 1 {
        AllLead(rule, h, ps, items);
        return;
      }
      var hashes, collisions := DetectCollisions(xx);
      if !collisions {
        AllLead(rule, h, ps, items);
        return;
      }
      MergeAndCompact(rule, hashes, h);
    }

    // Phases 2 and 3.
    method MergeAndCompact(rule: Rule, hashes: seq<Hash>, ghost h: Hasher)
      requires Valid() && |hashes| == |items|
      requires forall i :: 0 <= i < |items| ==> hashes[i] == h(View()[i].attrs)
      modifies this, items
      ensures Valid()
      ensures View() == GroupBy(rule, h, old(View()))
      ensures items == Pick(old(items), Leaders(h, old(View())))
    {
      hide Merge, Fold, Members, Order, Leaders, GroupBy, Leads, Gathered;
      ghost var was, ps, at := items, View(), Leaders(h, View());
      var remove := MergeGroups(rule, hashes, h);
      ghost var merged := View();
      PickedIsGroupBy(rule, h, ps, merged);
      RemoveMarked(remove, h, ps);
      LeadersMatchOrder(h, ps);
      assert forall j :: 0 <= j < |at| ==> items[j] == was[at[j]];
      assert View() == Pick(merged, at);
    }
  }

  lemma {:induction false} LeadersOfDistinct(h: Hasher, ps: seq<Point>)
    requires DistinctHashes(h, ps)
    ensures |Leaders(h, ps)| == |ps|
    ensures forall j :: 0 <= j < |ps| ==> Leaders(h, ps)[j] == j
  {
    if ps != [] {
      var n := |ps| - 1;
      LeadersOfDistinct(h, ps[..n]);
      OccursInOrder(h, ps[..n], h(ps[n].attrs));
    }
  }

  lemma AllLead<T>(rule: Rule, h: Hasher, ps: seq<Point>, items: seq<T>)
    requires DistinctHashes(h, ps) && |items| == |ps|
    ensures GroupBy(rule, h, ps) == ps
    ensures Pick(items, Leaders(h, ps)) == items
  {
    FastPath(rule, h, ps);
    LeadersOfDistinct(h, ps);
  }

  ghost function Views(items: seq<NumberDataPoint>): (ps: seq<Point>)
    reads items
    ensures |ps| == |items|
    ensures forall i :: 0 <= i < |ps| ==> ps[i] == items[i].View()
  {
    seq(|items|, i requires 0 <= i < |items| reads items => items[i].View())
  }
}
