/**
  The array combinators the application is written with (`filter`, `map`,
  `reduce` with `+`, `find`), as functions on sequences, and the facts about
  them that the rest of the model relies on.
*/
module Seqs {
  import opened Optional

  /** `s.filter(keep)`: the elements of `s` that satisfy `keep`, in their original order. */
  function Filter<T(!new)>(s: seq<T>, keep: T -> bool): (r: seq<T>)
    ensures |r| <= |s|
    ensures forall x :: x in r <==> x in s && keep(x)
  {
    if s == [] then []
    else if keep(s[0]) then [s[0]] + Filter(s[1..], keep)
    else Filter(s[1..], keep)
  }

  /** `s.map(f)`. */
  function Map<T, U>(s: seq<T>, f: T -> U): (r: seq<U>)
    ensures |r| == |s|
    ensures forall i :: 0 <= i < |s| ==> r[i] == f(s[i])
  {
    if s == [] then [] else [f(s[0])] + Map(s[1..], f)
  }

  /** `s.reduce((sum, x) => sum + f(x), 0)`, over exact reals. */
  function Sum<T>(s: seq<T>, f: T -> real): real
  {
    if s == [] then 0.0 else f(s[0]) + Sum(s[1..], f)
  }

  /** `s.find(p)`: the first element satisfying `p`, or `None` (JavaScript's `undefined`). */
  function Find<T(!new)>(s: seq<T>, p: T -> bool): (r: Option<T>)
    ensures r.None? <==> forall x :: x in s ==> !p(x)
    ensures r.Some? ==> exists i :: 0 <= i < |s| && s[i] == r.value && p(s[i]) && forall j :: 0 <= j < i ==> !p(s[j])
  {
    if s == [] then None
    else if p(s[0]) then Some(s[0])
    else
      var r := Find(s[1..], p);
      if r.Some? then
        ghost var i :| 0 <= i < |s[1..]| && s[1..][i] == r.value && p(s[1..][i]) && forall j :: 0 <= j < i ==> !p(s[1..][j]);
        assert s[i + 1] == r.value && forall j :: 0 <= j < i + 1 ==> !p(s[j]);
        r
      else r
  }

  /** No two elements of `s` share a key (a primary key or a unique constraint). */
  ghost predicate UniqueBy<T, K>(s: seq<T>, key: T -> K)
  {
    forall i, j :: 0 <= i < j < |s| ==> key(s[i]) != key(s[j])
  }

  lemma {:induction false} FilterConcat<T(!new)>(a: seq<T>, b: seq<T>, keep: T -> bool)
    ensures Filter(a + b, keep) == Filter(a, keep) + Filter(b, keep)
  {
    if a == [] {
      assert a + b == b;
    } else {
      assert (a + b)[0] == a[0] && (a + b)[1..] == a[1..] + b;
      FilterConcat(a[1..], b, keep);
    }
  }

  lemma {:induction false} SumConcat<T(!new)>(a: seq<T>, b: seq<T>, f: T -> real)
    ensures Sum(a + b, f) == Sum(a, f) + Sum(b, f)
  {
    if a == [] {
      assert a + b == b;
    } else {
      assert (a + b)[0] == a[0] && (a + b)[1..] == a[1..] + b;
      SumConcat(a[1..], b, f);
    }
  }

  /** Filtering with a predicate that holds of every element changes nothing. */
  lemma {:induction false} FilterKeepsAll<T(!new)>(s: seq<T>, keep: T -> bool)
    ensures (forall x :: x in s ==> keep(x)) ==> Filter(s, keep) == s
  {
    if s != [] {
      FilterKeepsAll(s[1..], keep);
    }
  }

  /** Filtering with a predicate that holds of no element leaves nothing. */
  lemma FilterKeepsNone<T(!new)>(s: seq<T>, keep: T -> bool)
    requires forall x :: x in s ==> !keep(x)
    ensures Filter(s, keep) == []
  {
  }

  /** Two predicates that agree on the elements of `s` filter it alike. */
  lemma {:induction false} FilterCongruent<T(!new)>(s: seq<T>, p: T -> bool, q: T -> bool)
    requires forall x :: x in s ==> p(x) == q(x)
    ensures Filter(s, p) == Filter(s, q)
  {
    if s != [] {
      FilterCongruent(s[1..], p, q);
    }
  }

  /** Two functions that agree on the elements of `s` map it alike. */
  lemma MapCongruent<T(!new), U>(s: seq<T>, f: T -> U, g: T -> U)
    requires forall x :: x in s ==> f(x) == g(x)
    ensures Map(s, f) == Map(s, g)
  {
    assert forall i :: 0 <= i < |s| ==> Map(s, f)[i] == Map(s, g)[i] by {
      forall i | 0 <= i < |s| ensures Map(s, f)[i] == Map(s, g)[i] {
        assert s[i] in s;
      }
    }
  }

  /** Filtering by a weaker predicate first and then by a stronger one is filtering by the stronger one. */
  lemma {:induction false} FilterOfFilter<T(!new)>(s: seq<T>, strong: T -> bool, weak: T -> bool)
    requires forall x :: x in s ==> strong(x) ==> weak(x)
    ensures Filter(Filter(s, weak), strong) == Filter(s, strong)
  {
    if s != [] {
      FilterOfFilter(s[1..], strong, weak);
      if weak(s[0]) {
        var rest := Filter(s[1..], weak);
        assert ([s[0]] + rest)[0] == s[0] && ([s[0]] + rest)[1..] == rest;
      }
    }
  }

  /**
    A weaker predicate keeps at least as many elements, and, for a non-negative
    measure, at least as large a sum.
  */
  lemma {:induction false} FilterWeakerKeepsMore<T(!new)>(s: seq<T>, strong: T -> bool, weak: T -> bool, f: T -> real)
    requires forall x :: x in s ==> strong(x) ==> weak(x)
    requires forall x :: x in s ==> f(x) >= 0.0
    ensures |Filter(s, strong)| <= |Filter(s, weak)|
    ensures Sum(Filter(s, strong), f) <= Sum(Filter(s, weak), f)
  {
    if s != [] {
      FilterWeakerKeepsMore(s[1..], strong, weak, f);
      var a, b := Filter(s[1..], strong), Filter(s[1..], weak);
      assert ([s[0]] + a)[0] == s[0] && ([s[0]] + a)[1..] == a;
      assert ([s[0]] + b)[0] == s[0] && ([s[0]] + b)[1..] == b;
    }
  }

  /**
    When `whole` is the disjoint union of `left` and `right`, the sum over what
    `whole` keeps is the sum over what `left` keeps plus the sum over what
    `right` keeps.
  */
  lemma {:induction false} FilterSumSplit<T(!new)>(s: seq<T>, whole: T -> bool, left: T -> bool, right: T -> bool, f: T -> real)
    requires forall x :: x in s ==> whole(x) == (left(x) || right(x))
    requires forall x :: x in s ==> !(left(x) && right(x))
    ensures Sum(Filter(s, whole), f) == Sum(Filter(s, left), f) + Sum(Filter(s, right), f)
  {
    if s != [] {
      FilterSumSplit(s[1..], whole, left, right, f);
      var w, l, r := Filter(s[1..], whole), Filter(s[1..], left), Filter(s[1..], right);
      assert ([s[0]] + w)[0] == s[0] && ([s[0]] + w)[1..] == w;
      assert ([s[0]] + l)[0] == s[0] && ([s[0]] + l)[1..] == l;
      assert ([s[0]] + r)[0] == s[0] && ([s[0]] + r)[1..] == r;
    }
  }

  lemma {:induction false} SumNonNegative<T(!new)>(s: seq<T>, f: T -> real)
    requires forall x :: x in s ==> f(x) >= 0.0
    ensures Sum(s, f) >= 0.0
  {
    if s != [] {
      SumNonNegative(s[1..], f);
    }
  }

  /** Filtering mapped values is mapping the values whose image passes the filter. */
  lemma {:induction false} FilterOfMap<T(!new), U(!new)>(s: seq<T>, f: T -> U, keep: U -> bool, keepImage: T -> bool)
    requires forall x :: x in s ==> keepImage(x) == keep(f(x))
    ensures Filter(Map(s, f), keep) == Map(Filter(s, keepImage), f)
  {
    if s != [] {
      FilterOfMap(s[1..], f, keep, keepImage);
      var m := Map(s, f);
      assert m[0] == f(s[0]) && m[1..] == Map(s[1..], f);
      if keepImage(s[0]) {
        var rest := Filter(s[1..], keepImage);
        assert ([s[0]] + rest)[0] == s[0] && ([s[0]] + rest)[1..] == rest;
      }
    }
  }

  /** A map that fixes every element changes nothing. */
  lemma MapIdentity<T(!new)>(s: seq<T>, f: T -> T)
    requires forall x :: x in s ==> f(x) == x
    ensures Map(s, f) == s
  {
    assert forall i :: 0 <= i < |s| ==> Map(s, f)[i] == s[i] by {
      forall i | 0 <= i < |s| ensures Map(s, f)[i] == s[i] {
        assert s[i] in s;
      }
    }
  }

  /** Dropping only elements whose measure is zero leaves the sum unchanged. */
  lemma {:induction false} FilterDropsZeros<T(!new)>(s: seq<T>, keep: T -> bool, f: T -> real)
    requires forall x :: x in s && !keep(x) ==> f(x) == 0.0
    ensures Sum(Filter(s, keep), f) == Sum(s, f)
  {
    if s != [] {
      FilterDropsZeros(s[1..], keep, f);
      var rest := Filter(s[1..], keep);
      assert ([s[0]] + rest)[0] == s[0] && ([s[0]] + rest)[1..] == rest;
    }
  }

  /** `n` copies of `k` added up: the product `n * k`, by repeated addition. */
  function Times(n: nat, k: real): real {
    if n == 0 then 0.0 else k + Times(n - 1, k)
  }

  lemma {:induction false} TimesIsProduct(n: nat, k: real)
    ensures Times(n, k) == n as real * k
  {
    if n > 0 {
      TimesIsProduct(n - 1, k);
    }
  }

  /** A sum of equal terms is the count times the term. */
  lemma {:induction false} SumConstant<T(!new)>(s: seq<T>, f: T -> real, k: real)
    requires forall x :: x in s ==> f(x) == k
    ensures Sum(s, f) == Times(|s|, k)
  {
    if s != [] {
      SumConstant(s[1..], f, k);
    }
  }

  /** Filtering keeps keys unique. */
  lemma {:induction false} FilterUniqueBy<T(!new), K>(s: seq<T>, keep: T -> bool, key: T -> K)
    ensures UniqueBy(s, key) ==> UniqueBy(Filter(s, keep), key)
  {
    if s != [] && UniqueBy(s, key) {
      FilterUniqueBy(s[1..], keep, key);
      var rest := Filter(s[1..], keep);
      if keep(s[0]) {
        forall x | x in rest ensures key(x) != key(s[0]) {
          var k :| 0 <= k < |s[1..]| && s[1..][k] == x;
          assert s[k + 1] == x;
        }
        var r := [s[0]] + rest;
        forall i, j | 0 <= i < j < |r| ensures key(r[i]) != key(r[j]) {
          if i > 0 {
            assert r[i] == rest[i - 1] && r[j] == rest[j - 1];
          } else {
            assert r[j] == rest[j - 1] && rest[j - 1] in rest;
          }
        }
      }
    }
  }

  /** A map that keeps each element's key keeps keys unique. */
  lemma MapUniqueBy<T(!new), K>(s: seq<T>, f: T -> T, key: T -> K)
    requires forall x :: x in s ==> key(f(x)) == key(x)
    ensures UniqueBy(s, key) ==> UniqueBy(Map(s, f), key)
  {
    var r := Map(s, f);
    if UniqueBy(s, key) {
      forall i, j | 0 <= i < j < |r| ensures key(r[i]) != key(r[j]) {
        assert s[i] in s && s[j] in s;
      }
    }
  }

  /** Appending an element whose key is new keeps keys unique. */
  lemma AppendUniqueBy<T(!new), K>(s: seq<T>, x: T, key: T -> K)
    requires UniqueBy(s, key)
    requires forall y :: y in s ==> key(y) != key(x)
    ensures UniqueBy(s + [x], key)
  {
    var r := s + [x];
    forall i, j | 0 <= i < j < |r| ensures key(r[i]) != key(r[j]) {
      assert r[i] == s[i];
      if j == |s| {
        assert s[i] in s;
      } else {
        assert r[j] == s[j];
      }
    }
  }
}
