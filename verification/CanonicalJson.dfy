/**
 The canonical form of a request body that the idempotency hash is taken of. A body is a tree of scalars,
 arrays and objects; an object lists its fields in enumeration order, each key once. The order in which the
 canonical object enumerates its keys is a parameter: the lemmas hold for every total order.
 */
module CanonicalJson {
  import opened Basics

  datatype Json =
    | Scalar(text: Str)
    | Arr(items: seq<Json>)
    | Obj(fields: seq<Field>)

  datatype Field = Field(key: Str, value: Json)

  type Order = (Str, Str) -> bool

  ghost predicate TotalOrder(leq: Order) {
    && (forall x :: leq(x, x))
    && (forall x, y :: leq(x, y) || leq(y, x))
    && (forall x, y :: leq(x, y) && leq(y, x) ==> x == y)
    && (forall x, y, z :: leq(x, y) && leq(y, z) ==> leq(x, z))
  }

  function Keys(fields: seq<Field>): (ks: seq<Str>)
    ensures |ks| == |fields|
    ensures forall i :: 0 <= i < |fields| ==> ks[i] == fields[i].key
  {
    seq(|fields|, i requires 0 <= i < |fields| => fields[i].key)
  }

  /** `obj[key]`. */
  function Lookup(fields: seq<Field>, k: Str): (v: Json)
    requires k in Keys(fields)
    ensures exists i :: 0 <= i < |fields| && fields[i] == Field(k, v)
    decreases |fields|
  {
    if fields[0].key == k then fields[0].value
    else
      assert k in Keys(fields[1..]) by {
        var i :| 0 <= i < |fields| && Keys(fields)[i] == k;
        assert Keys(fields[1..])[i - 1] == k;
      }
      var v := Lookup(fields[1..], k);
      assert exists i :: 0 <= i < |fields| && fields[i] == Field(k, v) by {
        var i :| 0 <= i < |fields[1..]| && fields[1..][i] == Field(k, v);
        assert fields[i + 1] == Field(k, v);
      }
      v
  }

  // ----- sorting keys -----

  ghost predicate Ascending(ks: seq<Str>, leq: Order) {
    forall i, j :: 0 <= i < j < |ks| ==> leq(ks[i], ks[j]) && ks[i] != ks[j]
  }

  function Insert(k: Str, ks: seq<Str>, leq: Order): (r: seq<Str>)
    ensures Elems(r) == Elems(ks) + {k}
    decreases |ks|
  {
    if ks == [] then [k]
    else if leq(k, ks[0]) then
      assert Elems([k] + ks) == Elems(ks) + {k};
      [k] + ks
    else
      var r := Insert(k, ks[1..], leq);
      assert ks == [ks[0]] + ks[1..];
      assert Elems([ks[0]] + r) == {ks[0]} + Elems(r);
      [ks[0]] + r
  }

  /** `keys.sort()`. */
  function SortKeys(ks: seq<Str>, leq: Order): (r: seq<Str>)
    ensures Elems(r) == Elems(ks)
    decreases |ks|
  {
    if ks == [] then []
    else
      assert ks == [ks[0]] + ks[1..];
      Insert(ks[0], SortKeys(ks[1..], leq), leq)
  }

  lemma {:induction false} InsertAscending(k: Str, ks: seq<Str>, leq: Order)
    requires TotalOrder(leq) && Ascending(ks, leq) && k !in ks
    ensures Ascending(Insert(k, ks, leq), leq)
    decreases |ks|
  {
    if ks != [] && !leq(k, ks[0]) {
      InsertAscending(k, ks[1..], leq);
      var r := Insert(k, ks[1..], leq);
      forall i | 0 <= i < |r|
        ensures leq(ks[0], r[i]) && ks[0] != r[i]
      {
        assert r[i] in Elems(ks[1..]) + {k};
      }
    }
  }

  lemma {:induction false} SortAscending(ks: seq<Str>, leq: Order)
    requires TotalOrder(leq) && Distinct(ks)
    ensures Ascending(SortKeys(ks, leq), leq)
    decreases |ks|
  {
    if ks != [] {
      SortAscending(ks[1..], leq);
      assert ks[0] !in Elems(ks[1..]);
      InsertAscending(ks[0], SortKeys(ks[1..], leq), leq);
    }
  }

  lemma EmptyIffNoElems(s: seq<Str>)
    ensures s == [] <==> Elems(s) == {}
  {
    assert s != [] ==> s[0] in Elems(s);
  }

  /** There is one ascending list of a given set of keys. */
  lemma {:induction false} AscendingUnique(xs: seq<Str>, ys: seq<Str>, leq: Order)
    requires TotalOrder(leq) && Ascending(xs, leq) && Ascending(ys, leq) && Elems(xs) == Elems(ys)
    ensures xs == ys
    decreases |xs|
  {
    if xs == [] || ys == [] {
      EmptyIffNoElems(xs);
      EmptyIffNoElems(ys);
    } else {
      assert xs[0] in Elems(ys) && ys[0] in Elems(xs);
      assert xs[0] == ys[0];
      assert Elems(xs[1..]) == Elems(xs) - {xs[0]};
      assert Elems(ys[1..]) == Elems(ys) - {ys[0]};
      AscendingUnique(xs[1..], ys[1..], leq);
    }
  }

  // ----- the canonical form -----

  /** Every object of the tree has each key once, as JavaScript objects do. */
  predicate WellFormed(j: Json) {
    match j
    case Scalar(_) => true
    case Arr(items) => forall i :: 0 <= i < |items| ==> WellFormed(items[i])
    case Obj(fields) => Distinct(Keys(fields)) && forall i :: 0 <= i < |fields| ==> WellFormed(fields[i].value)
  }

  function Canon(j: Json, leq: Order): Json
    decreases j
  {
    match j
    case Scalar(_) => j
    case Arr(items) => Arr(seq(|items|, i requires 0 <= i < |items| => Canon(items[i], leq)))
    case Obj(fields) =>
      var ks := SortKeys(Keys(fields), leq);
      Obj(seq(|ks|, i requires 0 <= i < |ks| =>
        assert ks[i] in Elems(ks);
        Field(ks[i], Canon(Lookup(fields, ks[i]), leq))))
  }

  /** The same body up to the order of object keys, at any depth; the order of arrays counts. */
  predicate SameUpToKeyOrder(a: Json, b: Json)
    decreases a
  {
    match a
    case Scalar(_) => a == b
    case Arr(xs) => b.Arr? && |xs| == |b.items| && forall i :: 0 <= i < |xs| ==> SameUpToKeyOrder(xs[i], b.items[i])
    case Obj(fs) =>
      && b.Obj? && Elems(Keys(fs)) == Elems(Keys(b.fields))
      && forall i :: 0 <= i < |fs| ==>
           assert fs[i].key == Keys(fs)[i] && fs[i].key in Elems(Keys(fs));
           SameUpToKeyOrder(fs[i].value, Lookup(b.fields, fs[i].key))
  }

  function CanonFields(fields: seq<Field>, leq: Order): (r: seq<Field>)
    ensures Canon(Obj(fields), leq) == Obj(r)
    ensures var ks := SortKeys(Keys(fields), leq);
            && |r| == |ks|
            && forall i :: 0 <= i < |ks| ==>
                 ks[i] in Keys(fields) && r[i] == Field(ks[i], Canon(Lookup(fields, ks[i]), leq))
  {
    var ks := SortKeys(Keys(fields), leq);
    assert forall i :: 0 <= i < |ks| ==> ks[i] in Elems(ks);
    Canon(Obj(fields), leq).fields
  }

  /** With distinct keys a field is found by its key. */
  lemma {:induction false} LookupIsField(fields: seq<Field>, i: nat)
    requires Distinct(Keys(fields)) && i < |fields|
    ensures fields[i].key in Keys(fields) && Lookup(fields, fields[i].key) == fields[i].value
  {
    assert Keys(fields)[i] == fields[i].key;
    var v := Lookup(fields, fields[i].key);
    var j :| 0 <= j < |fields| && fields[j] == Field(fields[i].key, v);
    assert Keys(fields)[j] == Keys(fields)[i];
  }

  lemma LookupWellFormed(fields: seq<Field>, k: Str)
    requires WellFormed(Obj(fields)) && k in Keys(fields)
    ensures WellFormed(Lookup(fields, k)) && Lookup(fields, k) < Obj(fields)
  {
  }

  // ----- equal canonical forms exactly for the same body -----

  lemma CanonKeysAscending(fields: seq<Field>, leq: Order)
    requires TotalOrder(leq) && Distinct(Keys(fields))
    ensures var r := CanonFields(fields, leq);
            && Keys(r) == SortKeys(Keys(fields), leq) && Ascending(Keys(r), leq)
            && Distinct(Keys(r)) && Elems(Keys(r)) == Elems(Keys(fields))
  {
    SortAscending(Keys(fields), leq);
    assert Keys(CanonFields(fields, leq)) == SortKeys(Keys(fields), leq);
  }

  lemma {:induction false} SameBodySameCanon(a: Json, b: Json, leq: Order)
    requires TotalOrder(leq) && WellFormed(a) && WellFormed(b) && SameUpToKeyOrder(a, b)
    ensures Canon(a, leq) == Canon(b, leq)
    decreases a
  {
    match a
    case Scalar(_) =>
    case Arr(xs) =>
      forall i | 0 <= i < |xs|
        ensures Canon(xs[i], leq) == Canon(b.items[i], leq)
      {
        SameBodySameCanon(xs[i], b.items[i], leq);
      }
    case Obj(fs) =>
      var gs := b.fields;
      CanonKeysAscending(fs, leq);
      CanonKeysAscending(gs, leq);
      var r, t := CanonFields(fs, leq), CanonFields(gs, leq);
      AscendingUnique(Keys(r), Keys(t), leq);
      forall i | 0 <= i < |r|
        ensures r[i] == t[i]
      {
        var k := Keys(r)[i];
        assert r[i].key == k && t[i].key == Keys(t)[i];
        var j :| 0 <= j < |fs| && Keys(fs)[j] == k;
        LookupIsField(fs, j);
        LookupWellFormed(gs, k);
        SameBodySameCanon(fs[j].value, Lookup(gs, k), leq);
      }
      assert r == t;
  }

  lemma {:induction false} SameCanonSameBody(a: Json, b: Json, leq: Order)
    requires TotalOrder(leq) && WellFormed(a) && WellFormed(b) && Canon(a, leq) == Canon(b, leq)
    ensures SameUpToKeyOrder(a, b)
    decreases a
  {
    match a
    case Scalar(_) =>
    case Arr(xs) =>
      var ca, cb := Canon(a, leq).items, Canon(b, leq).items;
      forall i | 0 <= i < |xs|
        ensures SameUpToKeyOrder(xs[i], b.items[i])
      {
        assert ca[i] == cb[i];
        SameCanonSameBody(xs[i], b.items[i], leq);
      }
    case Obj(fs) =>
      var gs := b.fields;
      CanonKeysAscending(fs, leq);
      CanonKeysAscending(gs, leq);
      var r, t := CanonFields(fs, leq), CanonFields(gs, leq);
      assert r == t;
      forall i | 0 <= i < |fs|
        ensures fs[i].key in Keys(gs) && SameUpToKeyOrder(fs[i].value, Lookup(gs, fs[i].key))
      {
        LookupIsField(fs, i);
        assert fs[i].key in Elems(Keys(r));
        var j :| 0 <= j < |r| && Keys(r)[j] == fs[i].key;
        assert r[j] == t[j] && r[j].key == fs[i].key;
        LookupWellFormed(gs, fs[i].key);
        SameCanonSameBody(fs[i].value, Lookup(gs, fs[i].key), leq);
      }
  }

  /** Two bodies have equal canonical forms if and only if they differ only by the order of object keys. */
  lemma CanonIffSame(a: Json, b: Json, leq: Order)
    requires TotalOrder(leq) && WellFormed(a) && WellFormed(b)
    ensures Canon(a, leq) == Canon(b, leq) <==> SameUpToKeyOrder(a, b)
  {
    if SameUpToKeyOrder(a, b) {
      SameBodySameCanon(a, b, leq);
    }
    if Canon(a, leq) == Canon(b, leq) {
      SameCanonSameBody(a, b, leq);
    }
  }

  /** The canonical form is the same body, and again has each key once. */
  lemma {:induction false} CanonIsSameBody(j: Json, leq: Order)
    requires TotalOrder(leq) && WellFormed(j)
    ensures WellFormed(Canon(j, leq)) && SameUpToKeyOrder(j, Canon(j, leq))
    decreases j
  {
    match j
    case Scalar(_) =>
    case Arr(xs) =>
      forall i | 0 <= i < |xs|
        ensures WellFormed(Canon(xs[i], leq)) && SameUpToKeyOrder(xs[i], Canon(xs[i], leq))
      {
        CanonIsSameBody(xs[i], leq);
      }
    case Obj(fs) =>
      CanonKeysAscending(fs, leq);
      var r := CanonFields(fs, leq);
      forall i | 0 <= i < |r|
        ensures WellFormed(r[i].value)
      {
        LookupWellFormed(fs, r[i].key);
        CanonIsSameBody(Lookup(fs, r[i].key), leq);
      }
      forall i | 0 <= i < |fs|
        ensures fs[i].key in Keys(r) && SameUpToKeyOrder(fs[i].value, Lookup(r, fs[i].key))
      {
        LookupIsField(fs, i);
        assert fs[i].key in Elems(Keys(r));
        var m :| 0 <= m < |r| && Keys(r)[m] == fs[i].key;
        LookupIsField(r, m);
        CanonIsSameBody(fs[i].value, leq);
      }
  }

  /** Canonicalising is idempotent. */
  lemma CanonIdempotent(j: Json, leq: Order)
    requires TotalOrder(leq) && WellFormed(j)
    ensures Canon(Canon(j, leq), leq) == Canon(j, leq)
  {
    CanonIsSameBody(j, leq);
    SameBodySameCanon(j, Canon(j, leq), leq);
  }

  // ----- the service's recursion -----

  /** `sortObjectKeys`: arrays item by item, objects rebuilt key by key in sorted order. */
  method SortObjectKeys(obj: Json, leq: Order) returns (r: Json)
    ensures r == Canon(obj, leq)
    decreases obj
  {
    match obj
    case Scalar(_) =>
      return obj;
    case Arr(items) =>
      var mapped: seq<Json> := [];
      for i := 0 to |items|
        invariant |mapped| == i
        invariant forall j :: 0 <= j < i ==> mapped[j] == Canon(items[j], leq)
      {
        var item := SortObjectKeys(items[i], leq);
        mapped := mapped + [item];
      }
      return Arr(mapped);
    case Obj(fields) =>
      var keys := SortKeys(Keys(fields), leq);
      ghost var expected := CanonFields(fields, leq);
      var sorted: seq<Field> := [];
      for i := 0 to |keys|
        invariant sorted == expected[..i]
      {
        assert keys[i] in Elems(keys);
        var value := SortObjectKeys(Lookup(fields, keys[i]), leq);
        sorted := sorted + [Field(keys[i], value)];
      }
      return Obj(sorted);
  }

  // ----- an order of keys -----

  /** JavaScript's comparison of strings, code unit by code unit. */
  predicate CodeUnitOrder(x: Str, y: Str)
    decreases |x|
  {
    x == [] || (y != [] && (x[0] < y[0] || (x[0] == y[0] && CodeUnitOrder(x[1..], y[1..]))))
  }

  lemma {:induction false} CodeUnitReflexive(x: Str)
    ensures CodeUnitOrder(x, x)
    decreases |x|
  {
    if x != [] {
      CodeUnitReflexive(x[1..]);
    }
  }

  lemma {:induction false} CodeUnitTwo(x: Str, y: Str)
    ensures CodeUnitOrder(x, y) || CodeUnitOrder(y, x)
    ensures CodeUnitOrder(x, y) && CodeUnitOrder(y, x) ==> x == y
    decreases |x|
  {
    if x != [] && y != [] && x[0] == y[0] {
      CodeUnitTwo(x[1..], y[1..]);
      assert x == [x[0]] + x[1..] && y == [y[0]] + y[1..];
    }
  }

  lemma {:induction false} CodeUnitTransitive(x: Str, y: Str, z: Str)
    requires CodeUnitOrder(x, y) && CodeUnitOrder(y, z)
    ensures CodeUnitOrder(x, z)
    decreases |x|
  {
    if x != [] && x[0] == y[0] && y[0] == z[0] {
      CodeUnitTransitive(x[1..], y[1..], z[1..]);
    }
  }

  /** The order of `sort()` is one of those the lemmas speak of. */
  lemma CodeUnitOrderIsTotal()
    ensures TotalOrder(CodeUnitOrder)
  {
    forall x, y
      ensures CodeUnitOrder(x, x)
      ensures CodeUnitOrder(x, y) || CodeUnitOrder(y, x)
      ensures CodeUnitOrder(x, y) && CodeUnitOrder(y, x) ==> x == y
    {
      CodeUnitReflexive(x);
      CodeUnitTwo(x, y);
    }
    forall x, y, z | CodeUnitOrder(x, y) && CodeUnitOrder(y, z)
      ensures CodeUnitOrder(x, z)
    {
      CodeUnitTransitive(x, y, z);
    }
  }
}
