/** Generic sequence operations: the `Array.prototype.filter`, `map` and `find`
    calls that the dashboard's domain code is built from, and the facts about
    them that every section reuses. */
module Lists {

  /** `undefined` / `null` versus a value. */
  datatype Option<+T> = None | Some(value: T)

  /** `s.filter(p)`: the elements of `s` satisfying `p`, in their original order. */
  function Filter<T>(s: seq<T>, p: T -> bool): (r: seq<T>)
    ensures |r| <= |s|
  {
    if s == [] then [] else (if p(s[0]) then [s[0]] else []) + Filter(s[1..], p)
  }

  /** `s.map(f)`. */
  function Map<A, B>(s: seq<A>, f: A -> B): seq<B>
  {
    seq(|s|, i requires 0 <= i < |s| => f(s[i]))
  }

  /** `s.find(p)`: the first element satisfying `p`, if any. */
  function Find<T>(s: seq<T>, p: T -> bool): Option<T>
  {
    if s == [] then None else if p(s[0]) then Some(s[0]) else Find(s[1..], p)
  }

  /** `a` is an order-preserving subsequence of `b`. */
  predicate IsSubsequence<T(==)>(a: seq<T>, b: seq<T>)
    decreases |b|
  {
    a == [] || (b != [] && ((a[0] == b[0] && IsSubsequence(a[1..], b[1..])) || IsSubsequence(a, b[1..])))
  }

  /** The number of elements of `s` satisfying `p`. */
  function Count<T>(s: seq<T>, p: T -> bool): nat
  {
    |Filter(s, p)|
  }

  /** Every element either satisfies `p` or does not, so the two filters'
      lengths add up to the whole. */
  lemma {:induction false} CountComplement<T>(s: seq<T>, p: T -> bool)
    ensures Count(s, p) + Count(s, (x: T) => !p(x)) == |s|
  {
    if s != [] {
      CountComplement(s[1..], p);
    }
  }

  /** A filter that drops some element is strictly shorter. */
  lemma {:induction false} FilterDropsFailing<T>(s: seq<T>, p: T -> bool, i: nat)
    requires i < |s| && !p(s[i])
    ensures |Filter(s, p)| < |s|
  {
    if i > 0 {
      FilterDropsFailing(s[1..], p, i - 1);
    }
  }

  lemma {:induction false} FilterMembers<T>(s: seq<T>, p: T -> bool, x: T)
    ensures x in Filter(s, p) <==> x in s && p(x)
  {
    if s != [] {
      FilterMembers(s[1..], p, x);
      assert s == [s[0]] + s[1..];
    }
  }

  /** A filter whose predicate holds everywhere keeps the whole sequence, in order. */
  lemma {:induction false} FilterKeepsAll<T>(s: seq<T>, p: T -> bool)
    requires forall i :: 0 <= i < |s| ==> p(s[i])
    ensures Filter(s, p) == s
  {
    if s != [] {
      FilterKeepsAll(s[1..], p);
      assert s == [s[0]] + s[1..];
    }
  }

  /** A filter whose predicate holds nowhere keeps nothing. */
  lemma {:induction false} FilterKeepsNone<T>(s: seq<T>, p: T -> bool)
    requires forall i :: 0 <= i < |s| ==> !p(s[i])
    ensures Filter(s, p) == []
  {
    if s != [] {
      FilterKeepsNone(s[1..], p);
    }
  }

  lemma {:induction false} FilterIsSubsequence<T>(s: seq<T>, p: T -> bool)
    ensures IsSubsequence(Filter(s, p), s)
  {
    if s != [] {
      FilterIsSubsequence(s[1..], p);
      var r := Filter(s, p);
      if p(s[0]) {
        assert r == [s[0]] + Filter(s[1..], p);
        assert r[1..] == Filter(s[1..], p);
      } else {
        assert r == Filter(s[1..], p);
      }
    }
  }

  lemma {:induction false} FilterAppend<T>(a: seq<T>, b: seq<T>, p: T -> bool)
    ensures Filter(a + b, p) == Filter(a, p) + Filter(b, p)
  {
    if a == [] {
      assert a + b == b;
    } else {
      var head := if p(a[0]) then [a[0]] else [];
      assert (a + b)[0] == a[0];
      assert (a + b)[1..] == a[1..] + b;
      FilterAppend(a[1..], b, p);
      assert Filter(a + b, p) == head + (Filter(a[1..], p) + Filter(b, p));
      assert Filter(a, p) == head + Filter(a[1..], p);
    }
  }

  /** Filtering twice by the same predicate changes nothing the second time. */
  lemma {:induction false} FilterIdempotent<T>(s: seq<T>, p: T -> bool)
    ensures Filter(Filter(s, p), p) == Filter(s, p)
  {
    if s != [] {
      FilterIdempotent(s[1..], p);
      if p(s[0]) {
        var r := Filter(s, p);
        assert r[0] == s[0] && r[1..] == Filter(s[1..], p);
        assert Filter(r, p) == [r[0]] + Filter(r[1..], p);
      } else {
        assert Filter(s, p) == Filter(s[1..], p);
      }
    }
  }

  lemma {:induction false} FindSome<T>(s: seq<T>, p: T -> bool)
    requires Find(s, p).Some?
    ensures Find(s, p).value in s && p(Find(s, p).value)
    ensures exists k :: 0 <= k < |s| && s[k] == Find(s, p).value && forall j :: 0 <= j < k ==> !p(s[j])
  {
    if !p(s[0]) {
      FindSome(s[1..], p);
      var k :| 0 <= k < |s[1..]| && s[1..][k] == Find(s, p).value && forall j :: 0 <= j < k ==> !p(s[1..][j]);
      assert s[k + 1] == Find(s, p).value;
      assert forall j :: 0 <= j < k + 1 ==> !p(s[j]) by {
        forall j | 0 <= j < k + 1 ensures !p(s[j]) {
          if j > 0 { assert s[j] == s[1..][j - 1]; }
        }
      }
    } else {
      assert s[0] == Find(s, p).value;
    }
  }

  lemma {:induction false} FindNone<T>(s: seq<T>, p: T -> bool)
    ensures Find(s, p).None? <==> forall i :: 0 <= i < |s| ==> !p(s[i])
  {
    if s != [] {
      FindNone(s[1..], p);
      if forall i :: 0 <= i < |s[1..]| ==> !p(s[1..][i]) {
        if !p(s[0]) {
          forall i | 0 <= i < |s| ensures !p(s[i]) {
            if i > 0 { assert s[i] == s[1..][i - 1]; }
          }
        }
      } else {
        var i :| 0 <= i < |s[1..]| && p(s[1..][i]);
        assert p(s[i + 1]);
      }
    }
  }

  /** `find` returns the first element that satisfies the test. */
  lemma {:induction false} FindFirst<T>(s: seq<T>, p: T -> bool, k: nat)
    requires k < |s| && p(s[k]) && forall j :: 0 <= j < k ==> !p(s[j])
    ensures Find(s, p) == Some(s[k])
  {
    if k > 0 {
      FindFirst(s[1..], p, k - 1);
    }
  }

  /** Filtering one more element of a prefix adds that element exactly when it
      passes. */
  lemma FilterSnoc<T>(s: seq<T>, i: nat, p: T -> bool)
    requires i < |s|
    ensures Filter(s[..i + 1], p) == Filter(s[..i], p) + (if p(s[i]) then [s[i]] else [])
  {
    assert s[..i + 1] == s[..i] + [s[i]];
    FilterAppend(s[..i], [s[i]], p);
  }
}
