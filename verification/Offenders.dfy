// The bounded list of top offenders: what "the N largest" means, the three moves of the streaming
// scan that keep it, and the in-place sort.
module Offenders {

  datatype OffenderEntry = OffenderEntry(metric: string, attr: string, delta: nat)

  ghost predicate Descending(s: seq<OffenderEntry>) {
    forall i, j :: 0 <= i < j < |s| ==> s[i].delta >= s[j].delta
  }

  // `top` holds n of the entries `all`, or all of them if there are fewer, and no entry left out is
  // larger than one taken.
  ghost predicate IsTop(top: seq<OffenderEntry>, all: multiset<OffenderEntry>, n: nat) {
    && multiset(top) <= all
    && |top| == (if |all| < n then |all| else n)
    && forall x, y :: x in all - multiset(top) && y in top ==> x.delta <= y.delta
  }

  lemma SubmultisetSize<T>(a: multiset<T>, b: multiset<T>)
    requires a <= b
    ensures |a| <= |b|
  {
    assert b == a + (b - a);
  }

  lemma CountSplit<T>(s: seq<T>, m: nat, x: T)
    requires m <= |s|
    ensures multiset(s)[x] == multiset(s[..m])[x] + multiset(s[m..])[x]
  {
    assert s == s[..m] + s[m..];
  }

  lemma LargerIsBefore(t: seq<OffenderEntry>, i: nat, x: OffenderEntry)
    requires i < |t| && Descending(t) && x.delta > t[i].delta
    ensures multiset(t)[x] == multiset(t[..i])[x]
  {
    forall b | 0 <= b < |t[i..]| ensures t[i..][b] != x {
      assert t[i..][b] == t[i + b];
    }
    assert x !in t[i..];
    CountSplit(t, i, x);
  }

  // If everything larger than `t[i]` occurs in `t` as often as in `s`, there is no room for `i + 1`
  // entries of `s` above it.
  lemma NoRoomAbove(s: seq<OffenderEntry>, t: seq<OffenderEntry>, i: nat)
    requires i < |s| && i < |t|
    requires Descending(s) && Descending(t)
    requires forall x: OffenderEntry :: x.delta > t[i].delta ==> multiset(s)[x] <= multiset(t)[x]
    ensures s[i].delta <= t[i].delta
  {
    if s[i].delta > t[i].delta {
      var above, below := s[..i + 1], t[..i];
      forall x | x in above ensures multiset(above)[x] <= multiset(below)[x] {
        assert x.delta >= s[i].delta;
        CountSplit(s, i + 1, x);
        LargerIsBefore(t, i, x);
      }
      SubmultisetSize(multiset(above), multiset(below));
    }
  }

  // A sorted top-N shows the first N deltas of the fully sorted entries.
  lemma TopIsPrefixOfFullSort(top: seq<OffenderEntry>, sorted: seq<OffenderEntry>, n: nat)
    requires Descending(top) && Descending(sorted)
    requires IsTop(top, multiset(sorted), n)
    ensures |top| <= |sorted|
    ensures forall i :: 0 <= i < |top| ==> top[i].delta == sorted[i].delta
  {
    forall i | 0 <= i < |top| ensures top[i].delta == sorted[i].delta {
      forall x: OffenderEntry | x.delta > top[i].delta ensures multiset(sorted)[x] <= multiset(top)[x] {
        assert x !in multiset(sorted) - multiset(top);
      }
      NoRoomAbove(sorted, top, i);
      NoRoomAbove(top, sorted, i);
    }
  }

  // ---------------------------------------------------------------------------------------------
  // The scan: what one more entry does to a top-N buffer.

  lemma TopIsFull(top: seq<OffenderEntry>, all: multiset<OffenderEntry>, n: nat)
    requires IsTop(top, all, n) && |top| < n
    ensures multiset(top) == all
  {
    assert all == multiset(top) + (all - multiset(top));
  }

  lemma AppendKeepsTop(top: seq<OffenderEntry>, all: multiset<OffenderEntry>, n: nat, e: OffenderEntry)
    requires IsTop(top, all, n) && |top| < n
    ensures IsTop(top + [e], all + multiset{e}, n)
  {
    TopIsFull(top, all, n);
    assert multiset(top + [e]) == all + multiset{e};
  }

  lemma SkipKeepsTop(top: seq<OffenderEntry>, all: multiset<OffenderEntry>, n: nat, e: OffenderEntry)
    requires IsTop(top, all, n) && |top| >= n
    requires forall y :: y in top ==> e.delta <= y.delta
    ensures IsTop(top, all + multiset{e}, n)
  {
    SubmultisetSize(multiset(top), all);
  }

  lemma ReplaceKeepsTop(top: seq<OffenderEntry>, all: multiset<OffenderEntry>, n: nat, e: OffenderEntry, at: nat)
    requires IsTop(top, all, n) && |top| >= n
    requires at < |top| && e.delta > top[at].delta
    requires forall y :: y in top ==> top[at].delta <= y.delta
    ensures IsTop(top[at := e], all + multiset{e}, n)
  {
    var out := top[at];
    var top' := top[at := e];
    assert multiset(top') == multiset(top) - multiset{out} + multiset{e};
    SubmultisetSize(multiset(top), all);
    var left, left' := all - multiset(top), all + multiset{e} - multiset(top');
    assert left' == left + multiset{out};
    forall x, y | x in left' && y in top' ensures x.delta <= y.delta {
      assert x == out || x in left;
      assert y == e || y in top;
    }
  }

  // The body of the scan: append while there is room, else replace the first minimum if beaten.
  method Offer(topBuf: seq<OffenderEntry>, topN: nat, e: OffenderEntry, ghost all: multiset<OffenderEntry>)
    returns (r: seq<OffenderEntry>)
    requires topN > 0 && IsTop(topBuf, all, topN)
    ensures IsTop(r, all + multiset{e}, topN)
  {
    if |topBuf| < topN {
      AppendKeepsTop(topBuf, all, topN, e);
      return topBuf + [e];
    }
    var minIdx := 0;
    for i := 1 to |topBuf|
      invariant minIdx < |topBuf|
      invariant forall j :: 0 <= j < i ==> topBuf[minIdx].delta <= topBuf[j].delta
    {
      if topBuf[i].delta < topBuf[minIdx].delta {
        minIdx := i;
      }
    }
    hide IsTop;
    if e.delta > topBuf[minIdx].delta {
      ReplaceKeepsTop(topBuf, all, topN, e, minIdx);
      return topBuf[minIdx := e];
    }
    SkipKeepsTop(topBuf, all, topN, e);
    return topBuf;
  }

  // ---------------------------------------------------------------------------------------------
  // Insertion sort in place.

  // `key` sinks from the hole at `at` past the smaller entries before it.
  ghost function Sink(s: seq<OffenderEntry>, at: nat, key: OffenderEntry): (r: seq<OffenderEntry>)
    requires at < |s|
    ensures |r| == |s|
    decreases at
  {
    if at > 0 && s[at - 1].delta < key.delta then Sink(s[at := s[at - 1]], at - 1, key) else s[at := key]
  }

  ghost function SortedTo(s: seq<OffenderEntry>, n: nat): (r: seq<OffenderEntry>)
    requires n <= |s|
    ensures |r| == |s|
  {
    if n <= 1 then s else
    var r := SortedTo(s, n - 1);
    Sink(r, n - 1, r[n - 1])
  }

  lemma {:induction false} SinkMultiset(s: seq<OffenderEntry>, at: nat, key: OffenderEntry)
    requires at < |s|
    ensures multiset(Sink(s, at, key)) == multiset(s[at := key])
    decreases at
  {
    if at > 0 && s[at - 1].delta < key.delta {
      var t := s[at := s[at - 1]];
      SinkMultiset(t, at - 1, key);
      var rest := multiset(s) - multiset{s[at]};
      assert multiset(t) == rest + multiset{s[at - 1]};
      assert multiset(t[at - 1 := key]) == multiset(t) - multiset{t[at - 1]} + multiset{key};
    }
  }

  // The entries before the hole are sorted, those between it and `upTo` are sorted and smaller than
  // `key`, and smaller than all before the hole.
  lemma {:induction false} SinkSorts(s: seq<OffenderEntry>, at: nat, key: OffenderEntry, upTo: nat)
    requires at < upTo <= |s|
    requires forall a, b :: 0 <= a < b < upTo && a != at && b != at ==> s[a].delta >= s[b].delta
    requires forall b :: at < b < upTo ==> s[b].delta < key.delta
    ensures Descending(Sink(s, at, key)[..upTo])
    decreases at
  {
    if at > 0 && s[at - 1].delta < key.delta {
      SinkSorts(s[at := s[at - 1]], at - 1, key, upTo);
    }
  }

  lemma {:induction false} SortedToSorts(s: seq<OffenderEntry>, n: nat)
    requires n <= |s|
    ensures Descending(SortedTo(s, n)[..n])
    ensures multiset(SortedTo(s, n)) == multiset(s)
  {
    if n > 1 {
      SortedToSorts(s, n - 1);
      var r := SortedTo(s, n - 1);
      forall a, b | 0 <= a < b < n && b != n - 1 ensures r[a].delta >= r[b].delta {
        assert r[..n - 1][a] == r[a] && r[..n - 1][b] == r[b];
      }
      SinkSorts(r, n - 1, r[n - 1], n);
      SinkMultiset(r, n - 1, r[n - 1]);
      assert r[n - 1 := r[n - 1]] == r;
    }
  }

  // The inner loop: lift out `s[i]` and shift smaller entries up until its place is found.
  method SinkInPlace(s: array<OffenderEntry>, i: nat)
    requires i < s.Length
    modifies s
    ensures s[..] == Sink(old(s[..]), i, old(s[i]))
  {
    var key := s[i];
    var j := i - 1;
    while j >= 0 && s[j].delta < key.delta
      invariant -1 <= j < i
      invariant Sink(s[..], j + 1, key) == Sink(old(s[..]), i, key)
    {
      ghost var before := s[..];
      s[j + 1] := s[j];
      assert s[..] == before[j + 1 := before[j]];
      j := j - 1;
    }
    ghost var before := s[..];
    s[j + 1] := key;
    assert s[..] == before[j + 1 := key];
  }

  method SortOffenders(s: array<OffenderEntry>)
    modifies s
    ensures Descending(s[..])
    ensures multiset(s[..]) == multiset(old(s[..]))
  {
    ghost var was := s[..];
    var i := 1;
    while i < s.Length
      invariant i == 1 || 1 <= i <= s.Length
      invariant s[..] == if i <= s.Length then SortedTo(was, i) else was
    {
      SinkInPlace(s, i);
      i := i + 1;
    }
    SortedToSorts(was, s.Length);
    assert s[..] == s[..s.Length] == SortedTo(was, s.Length);
  }
}
