/** Shared vocabulary: JavaScript strings, optional values, and lists without repetition. */
module Basics {

  /** One UTF-16 code unit; a JavaScript string is a list of them. */
  type CodeUnit = u: int | 0 <= u < 0x1_0000

  type Str = seq<CodeUnit>

  datatype Option<+T> = None | Some(value: T)

  datatype Result<+T, +E> = Ok(value: T) | Err(error: E)

  predicate Distinct<T(==)>(s: seq<T>) {
    forall i, j :: 0 <= i < j < |s| ==> s[i] != s[j]
  }

  function Elems<T>(s: seq<T>): set<T> {
    set x | x in s
  }

  /** A list is free of repetition exactly when it has as many members as entries. */
  lemma {:induction false} DistinctIffFull<T>(s: seq<T>)
    ensures |Elems(s)| <= |s|
    ensures Distinct(s) <==> |Elems(s)| == |s|
  {
    if s == [] {
    } else {
      var n := |s| - 1;
      var p, x := s[..n], s[n];
      DistinctIffFull(p);
      assert s == p + [x];
      assert Elems(s) == Elems(p) + {x};
      if x in p {
        assert Elems(s) == Elems(p);
        assert !Distinct(s);
      } else {
        assert Distinct(s) <==> Distinct(p);
      }
    }
  }

  lemma SplitCard<T>(a: set<T>, b: set<T>)
    requires b <= a
    ensures |a| == |a - b| + |b|
    ensures |b| == |a| ==> a == b
  {
    assert a == (a - b) + b;
  }
}
