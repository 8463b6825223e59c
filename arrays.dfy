/** `Array.prototype.filter`, which every stage of the board's derived view is built from. */
module Arrays {

  /** `s.filter(p)`: the elements that pass `p`, in their original order. */
  function Filter<T>(s: seq<T>, p: T -> bool): (r: seq<T>)
    ensures |r| <= |s|
    ensures forall k :: 0 <= k < |r| ==> p(r[k])
  {
    if s == [] then []
    else (if p(s[0]) then [s[0]] else []) + Filter(s[1..], p)
  }

  /** Filtering keeps every copy of an element that passes and no copy of one that fails. */
  lemma {:induction false} FilterCount<T>(s: seq<T>, p: T -> bool, x: T)
    ensures multiset(Filter(s, p))[x] == if p(x) then multiset(s)[x] else 0
  {
    if s != [] {
      FilterCount(s[1..], p, x);
      assert s == [s[0]] + s[1..];
      assert multiset(s) == multiset{s[0]} + multiset(s[1..]);
    }
  }

  /** Filtering a concatenation filters each part: the order of the survivors is kept. */
  lemma {:induction false} FilterAppend<T>(a: seq<T>, b: seq<T>, p: T -> bool)
    ensures Filter(a + b, p) == Filter(a, p) + Filter(b, p)
  {
    if a == [] {
      assert a + b == b;
    } else {
      var head := if p(a[0]) then [a[0]] else [];
      assert (a + b)[0] == a[0] && (a + b)[1..] == a[1..] + b;
      calc {
        Filter(a + b, p);
        head + Filter(a[1..] + b, p);
        { FilterAppend(a[1..], b, p); }
        head + (Filter(a[1..], p) + Filter(b, p));
        (head + Filter(a[1..], p)) + Filter(b, p);
        Filter(a, p) + Filter(b, p);
      }
    }
  }

  /** The test that passes what both `p` and `q` pass. */
  function Both<T>(p: T -> bool, q: T -> bool): T -> bool
  {
    (x: T) => p(x) && q(x)
  }

  /** Two filters one after the other are one filter with both tests. */
  lemma {:induction false} FilterFilter<T>(s: seq<T>, p: T -> bool, q: T -> bool)
    ensures Filter(Filter(s, p), q) == Filter(s, Both(p, q))
  {
    if s != [] {
      FilterFilter(s[1..], p, q);
      var head := if p(s[0]) then [s[0]] else [];
      FilterAppend(head, Filter(s[1..], p), q);
    }
  }

  /** Filters with tests that agree everywhere give the same result. */
  lemma {:induction false} FilterSameTest<T>(s: seq<T>, p: T -> bool, q: T -> bool)
    requires forall x :: p(x) == q(x)
    ensures Filter(s, p) == Filter(s, q)
  {
    if s != [] {
      FilterSameTest(s[1..], p, q);
    }
  }

  /** Equal filtered tails stay equal behind the same head. */
  lemma FilterCons<T>(x: T, a: seq<T>, b: seq<T>, p: T -> bool)
    requires Filter(a, p) == Filter(b, p)
    ensures Filter([x] + a, p) == Filter([x] + b, p)
  {
    assert ([x] + a)[1..] == a && ([x] + b)[1..] == b;
  }

  /** Two neighbours of which at most one passes may change places without changing the filtered result. */
  lemma FilterSwap<T>(x: T, y: T, s: seq<T>, p: T -> bool)
    requires !(p(x) && p(y))
    ensures Filter([x] + ([y] + s), p) == Filter([y] + ([x] + s), p)
  {
    assert ([x] + ([y] + s))[1..] == [y] + s && ([y] + s)[1..] == s;
    assert ([y] + ([x] + s))[1..] == [x] + s && ([x] + s)[1..] == s;
  }

  /** A filter that every element passes returns its input. */
  lemma {:induction false} FilterAll<T>(s: seq<T>, p: T -> bool)
    requires forall k :: 0 <= k < |s| ==> p(s[k])
    ensures Filter(s, p) == s
  {
    if s != [] {
      FilterAll(s[1..], p);
    }
  }

  /** Whatever order relation holds between the elements of `s` still holds after filtering. */
  lemma {:induction false} FilterKeepsOrder<T>(s: seq<T>, p: T -> bool, before: (T, T) -> bool)
    requires forall i, j :: 0 <= i < j < |s| ==> before(s[i], s[j])
    ensures forall i, j :: 0 <= i < j < |Filter(s, p)| ==> before(Filter(s, p)[i], Filter(s, p)[j])
  {
    if s != [] {
      FilterKeepsOrder(s[1..], p, before);
      var rest := Filter(s[1..], p);
      forall y | y in rest ensures before(s[0], y) {
        FilterCount(s[1..], p, y);
        assert y in multiset(s[1..]);
        var k :| 0 <= k < |s[1..]| && s[1..][k] == y;
        assert s[k + 1] == y;
      }
      var r := Filter(s, p);
      forall i, j | 0 <= i < j < |r| ensures before(r[i], r[j]) {
        if p(s[0]) {
          assert r == [s[0]] + rest;
          if i > 0 {
            assert r[i] == rest[i - 1] && r[j] == rest[j - 1];
            assert before(rest[i - 1], rest[j - 1]);
          } else {
            assert r[j] == rest[j - 1] && r[j] in rest;
            assert before(s[0], r[j]);
          }
        } else {
          assert r == rest;
          assert before(rest[i], rest[j]);
        }
      }
    }
  }
}
