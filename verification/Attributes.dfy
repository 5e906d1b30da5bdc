// Attribute lists, what identifies a data point, and the identity hash.
module Attributes {
  import opened Hashing

  // A value is only ever looked at through its string rendering.
  datatype Value = Str(s: string) | Bool(b: bool) | Other(rendering: string)

  function AsString(v: Value): string {
    match v
    case Str(s) => s
    case Bool(b) => if b then "true" else "false"
    case Other(r) => r
  }

  datatype Attribute = Attribute(key: string, value: Value)

  type Attrs = seq<Attribute>

  ghost predicate UniqueKeys(attrs: Attrs) {
    forall i, j :: 0 <= i < j < |attrs| ==> attrs[i].key != attrs[j].key
  }

  function Rendered(attrs: Attrs): (r: seq<(string, string)>)
    ensures |r| == |attrs|
    ensures forall i :: 0 <= i < |r| ==> r[i] == (attrs[i].key, AsString(attrs[i].value))
  {
    seq(|attrs|, i requires 0 <= i < |attrs| => (attrs[i].key, AsString(attrs[i].value)))
  }

  // The attribute set of a data point: order is immaterial, values count by rendering.
  ghost function Identity(attrs: Attrs): multiset<(string, string)> {
    multiset(Rendered(attrs))
  }

  // The labels among `keys` that a point carries, with their values.
  ghost function Labels(attrs: Attrs, keys: set<string>): set<(string, string)> {
    set p | p in Rendered(attrs) && p.0 in keys
  }

  lemma IdentityDeterminesLabels(a: Attrs, b: Attrs, keys: set<string>)
    requires Identity(a) == Identity(b)
    ensures Labels(a, keys) == Labels(b, keys)
  {
    forall p ensures p in Rendered(a) <==> p in Rendered(b) {
      assert p in Rendered(a) <==> p in Identity(a);
      assert p in Rendered(b) <==> p in Identity(b);
    }
  }

  // ---------------------------------------------------------------------------------------------
  // The identity hash.

  function Encode(p: (string, string)): string {
    p.0 + ['\0'] + p.1
  }

  function Bits(h: Hash): bv64 {
    h as bv64
  }

  function PairHash(xx: StringHash): ((string, string)) -> bv64 {
    p => Bits(xx(Encode(p)))
  }

  function Xor(a: bv64, b: bv64): bv64 {
    a ^ b
  }

  ghost function XorFold<T>(f: T -> bv64, s: seq<T>): bv64 {
    if s == [] then 0 else Xor(XorFold(f, s[..|s| - 1]), f(s[|s| - 1]))
  }

  function AsHash(b: bv64): Hash {
    b as Hash
  }

  ghost function IdentityHash(xx: StringHash, attrs: Attrs): Hash {
    AsHash(XorFold(PairHash(xx), Rendered(attrs)))
  }

  ghost function AttrHash(xx: StringHash): Attrs -> Hash {
    attrs => IdentityHash(xx, attrs)
  }

  method HashAttributes(xx: StringHash, attrs: Attrs) returns (h: Hash)
    ensures h == IdentityHash(xx, attrs)
  {
    if |attrs| == 0 {
      return 0;
    }
    var combined: bv64 := 0;
    ghost var pairs := Rendered(attrs);
    hide Xor, AsString, Encode;
    var pairHash := PairHash(xx);
    assert XorFold(pairHash, pairs[..0]) == 0;
    hide XorFold, PairHash;
    for i := 0 to |attrs|
      invariant combined == XorFold(pairHash, pairs[..i])
    {
      combined := Xor(combined, pairHash((attrs[i].key, AsString(attrs[i].value))));
      XorFoldSnoc(pairHash, pairs, i);
    }
    assert pairs[..|attrs|] == pairs;
    h := AsHash(combined);
  }

  lemma XorFoldSnoc<T>(f: T -> bv64, s: seq<T>, i: nat)
    requires i < |s|
    ensures XorFold(f, s[..i + 1]) == Xor(XorFold(f, s[..i]), f(s[i]))
  {
    assert s[..i + 1][..i] == s[..i];
  }

  lemma XorSwap(a: bv64, b: bv64, c: bv64)
    ensures Xor(Xor(a, b), c) == Xor(Xor(a, c), b)
  {
    assert Xor(a, b) == a ^ b && Xor(a, c) == a ^ c;
    assert Xor(a ^ b, c) == Xor(a ^ c, b) by {
      RawXorSwap(a, b, c);
    }
    hide Xor;
  }

  lemma RawXorSwap(a: bv64, b: bv64, c: bv64)
    ensures Xor(a ^ b, c) == Xor(a ^ c, b)
  {
  }

  function Without<T>(s: seq<T>, j: nat): (r: seq<T>)
    requires j < |s|
    ensures |r| == |s| - 1
  {
    s[..j] + s[j + 1..]
  }

  lemma {:induction false} XorFoldWithout<T>(f: T -> bv64, s: seq<T>, j: nat)
    requires j < |s|
    ensures XorFold(f, s) == Xor(XorFold(f, Without(s, j)), f(s[j]))
  {
    hide Xor;
    var n := |s| - 1;
    if j == n {
      assert Without(s, j) == s[..n];
    } else {
      XorFoldWithout(f, s[..n], j);
      var rest := Without(s, j);
      assert rest[..n - 1] == Without(s[..n], j);
      XorSwap(XorFold(f, rest[..n - 1]), f(s[j]), f(s[n]));
    }
  }

  lemma {:induction false} XorFoldPermutes<T>(f: T -> bv64, a: seq<T>, b: seq<T>)
    requires multiset(a) == multiset(b)
    ensures XorFold(f, a) == XorFold(f, b)
    decreases |a|
  {
    hide Xor;
    if a == [] {
      assert |multiset(b)| == |b|;
    } else {
      var n := |a| - 1;
      assert a == a[..n] + [a[n]];
      assert a[n] in multiset(b);
      var j :| 0 <= j < |b| && b[j] == a[n];
      assert b == b[..j] + [b[j]] + b[j + 1..];
      assert multiset(Without(b, j)) == multiset(b) - multiset{a[n]} == multiset(a[..n]);
      XorFoldPermutes(f, a[..n], Without(b, j));
      XorFoldWithout(f, b, j);
    }
  }

  // Equal attribute sets hash alike, in whatever order they are listed.
  lemma SameIdentitySameHash(xx: StringHash, a: Attrs, b: Attrs)
    requires Identity(a) == Identity(b)
    ensures IdentityHash(xx, a) == IdentityHash(xx, b)
  {
    XorFoldPermutes(PairHash(xx), Rendered(a), Rendered(b));
  }

  lemma XorCancels(x: bv64, a: bv64, b: bv64)
    ensures Xor(x, a) == Xor(x, b) <==> a == b
  {
    RawXorCancels(x, a, b);
  }

  lemma RawXorCancels(x: bv64, a: bv64, b: bv64)
    ensures x ^ a == x ^ b <==> a == b
  {
  }

  lemma AsHashKeepsBits(b: bv64)
    ensures AsHash(b) as bv64 == b
  {
  }

  lemma AsHashInjective(a: bv64, b: bv64)
    ensures AsHash(a) == AsHash(b) <==> a == b
  {
    AsHashKeepsBits(a);
    AsHashKeepsBits(b);
    hide AsHash;
  }

  lemma RenderedUpdate(attrs: Attrs, i: nat, b: Attribute)
    requires i < |attrs|
    ensures Rendered(attrs[i := b]) == Rendered(attrs)[i := (b.key, AsString(b.value))]
  {
    hide AsString;
  }

  lemma {:induction false} XorFoldTells<T>(f: T -> bv64, s: seq<T>, i: nat, y: T)
    requires i < |s|
    ensures XorFold(f, s) == XorFold(f, s[i := y]) <==> f(s[i]) == f(y)
  {
    hide Xor, XorFold;
    assert Without(s, i) == Without(s[i := y], i);
    XorFoldWithout(f, s, i);
    XorFoldWithout(f, s[i := y], i);
    XorCancels(XorFold(f, Without(s, i)), f(s[i]), f(y));
  }

  lemma PairHashText(xx: StringHash, p: (string, string))
    ensures PairHash(xx)(p) == Bits(xx(p.0 + ['\0'] + p.1))
  {
    hide Bits;
    assert Encode(p) == p.0 + ['\0'] + p.1;
  }

  lemma OneLabelTellsBits(xx: StringHash, attrs: Attrs, i: nat, b: Attribute)
    requires i < |attrs|
    ensures
      var text, text' := attrs[i].key + ['\0'] + AsString(attrs[i].value), b.key + ['\0'] + AsString(b.value);
      IdentityHash(xx, attrs) == IdentityHash(xx, attrs[i := b]) <==> Bits(xx(text)) == Bits(xx(text'))
  {
    hide Xor, XorFold, AsHash, AsString, PairHash, Encode, Bits;
    var p, p' := (attrs[i].key, AsString(attrs[i].value)), (b.key, AsString(b.value));
    assert Rendered(attrs)[i] == p;
    RenderedUpdate(attrs, i, b);
    PairHashText(xx, p);
    PairHashText(xx, p');
    XorFoldTells(PairHash(xx), Rendered(attrs), i, p');
    AsHashInjective(XorFold(PairHash(xx), Rendered(attrs)), XorFold(PairHash(xx), Rendered(attrs[i := b])));
  }

  // Replacing one label changes the identity hash exactly when xxhash tells the two texts apart.
  lemma OneLabelTells(xx: StringHash, attrs: Attrs, i: nat, b: Attribute)
    requires i < |attrs|
    ensures
      var text, text' := attrs[i].key + ['\0'] + AsString(attrs[i].value), b.key + ['\0'] + AsString(b.value);
      IdentityHash(xx, attrs) == IdentityHash(xx, attrs[i := b]) <==> xx(text) as bv64 == xx(text') as bv64
  {
    OneLabelTellsBits(xx, attrs, i, b);
    hide IdentityHash, AsString;
  }

  // The pair encoding loses nothing when keys are free of NUL ...
  lemma EncodeInjective(p: (string, string), q: (string, string))
    requires '\0' !in p.0 && '\0' !in q.0
    requires Encode(p) == Encode(q)
    ensures p == q
  {
    var e := Encode(p);
    assert forall i :: 0 <= i < |p.0| ==> e[i] == p.0[i];
    assert forall i :: 0 <= i < |q.0| ==> e[i] == q.0[i];
    assert e[|p.0|] == e[|q.0|] == '\0';
    assert |p.0| == |q.0|;
    assert p.0 == e[..|p.0|] == q.0;
    assert p.1 == e[|p.0| + 1..] == q.1;
  }

  const NUL_IN_KEY := ("a\0b", "c")
  const NUL_IN_VALUE := ("a", "b\0c")

  function Only(p: (string, string)): Attrs {
    [Attribute(p.0, Str(p.1))]
  }

  // ... but as soon as one may contain it, different attribute sets hash alike, whatever xxhash does.
  lemma EncodeAmbiguous(xx: StringHash)
    ensures NUL_IN_KEY.0 != NUL_IN_VALUE.0 && Encode(NUL_IN_KEY) == Encode(NUL_IN_VALUE)
    ensures Identity(Only(NUL_IN_KEY)) != Identity(Only(NUL_IN_VALUE))
    ensures IdentityHash(xx, Only(NUL_IN_KEY)) == IdentityHash(xx, Only(NUL_IN_VALUE))
  {
    assert NUL_IN_KEY.0 != NUL_IN_VALUE.0 && Encode(NUL_IN_KEY) == Encode(NUL_IN_VALUE) by {
      assert |NUL_IN_KEY.0| != |NUL_IN_VALUE.0|;
      assert Encode(NUL_IN_KEY) == "a\0b\0c";
    }
    hide Encode, Only, Identity, IdentityHash, NUL_IN_KEY, NUL_IN_VALUE;
    SameEncodingSameHash(xx, NUL_IN_KEY, NUL_IN_VALUE);
  }

  lemma LabelsOfOne(p: (string, string), keys: set<string>)
    ensures Labels(Only(p), keys) == if p.0 in keys then {p} else {}
  {
    assert Rendered(Only(p)) == [p];
  }

  lemma SameEncodingSameHash(xx: StringHash, p: (string, string), q: (string, string))
    requires p != q && Encode(p) == Encode(q)
    ensures Identity(Only(p)) != Identity(Only(q)) && IdentityHash(xx, Only(p)) == IdentityHash(xx, Only(q))
  {
    hide Encode, Xor;
    assert Rendered(Only(p)) == [p] && Rendered(Only(q)) == [q];
    assert p in Identity(Only(p)) && p !in Identity(Only(q));
    assert [p][..0] == [q][..0];
  }
}
