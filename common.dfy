/** Sequence helpers shared by the model: an optional value, order-keeping filters,
    first occurrences (duplicate removal) and the subsequence relation. */
module Common {

  datatype Option<+T> = None | Some(value: T)

  /** The elements of `s` that satisfy `p`, in their order in `s`: a list comprehension
      with a condition, or a WHERE clause read in table order. */
  function Filter<T(!new)>(s: seq<T>, p: T -> bool): (r: seq<T>)
    ensures |r| <= |s|
    ensures forall x :: x in r <==> x in s && p(x)
    decreases |s|
  {
    if s == [] then []
    else
      var init := Filter(s[..|s| - 1], p);
      assert s == s[..|s| - 1] + [s[|s| - 1]];
      if p(s[|s| - 1]) then init + [s[|s| - 1]] else init
  }

  /** Filtering a sequence extended by one element. */
  lemma FilterSnoc<T(!new)>(s: seq<T>, x: T, p: T -> bool)
    ensures Filter(s + [x], p) == if p(x) then Filter(s, p) + [x] else Filter(s, p)
  {
    assert (s + [x])[..|s + [x]| - 1] == s;
  }

  /** Two complementary filters split a sequence: their lengths add up to its length and
      together they hold exactly its elements, with multiplicity. */
  lemma {:induction false} FilterPartition<T(!new)>(s: seq<T>, p: T -> bool, q: T -> bool)
    requires forall x :: q(x) == !p(x)
    ensures |Filter(s, p)| + |Filter(s, q)| == |s|
    ensures multiset(Filter(s, p)) + multiset(Filter(s, q)) == multiset(s)
    decreases |s|
  {
    if s != [] {
      var init, x := s[..|s| - 1], s[|s| - 1];
      FilterPartition(init, p, q);
      assert s == init + [x];
      FilterSnoc(init, x, p);
      FilterSnoc(init, x, q);
      assert multiset(s) == multiset(init) + multiset{x};
    }
  }

  /** `a` is `b` with some elements left out, the others in their original order. */
  predicate IsSubsequence<T(==)>(a: seq<T>, b: seq<T>)
    decreases |b|
  {
    if a == [] then true
    else if b == [] then false
    else if a[|a| - 1] == b[|b| - 1] then IsSubsequence(a[..|a| - 1], b[..|b| - 1])
    else IsSubsequence(a, b[..|b| - 1])
  }

  /** A filter keeps the relative order of the elements it keeps. */
  lemma {:induction false} FilterIsSubsequence<T(!new)>(s: seq<T>, p: T -> bool)
    ensures IsSubsequence(Filter(s, p), s)
    decreases |s|
  {
    if s != [] {
      var init := s[..|s| - 1];
      FilterIsSubsequence(init, p);
      var r := Filter(s, p);
      if p(s[|s| - 1]) {
        assert r[..|r| - 1] == Filter(init, p);
      } else if r != [] {
        assert r[|r| - 1] in r;
      }
    }
  }

  /** `s` holds no element twice. */
  predicate NoDuplicates<T(==)>(s: seq<T>)
  {
    forall i, j :: 0 <= i < j < |s| ==> s[i] != s[j]
  }

  /** The distinct elements of `s`, each kept at its first occurrence: the result of the
      loop `for x in s: if x not in out: out.append(x)`. */
  function FirstOccurrences<T(==,!new)>(s: seq<T>): (r: seq<T>)
    ensures forall x :: x in r <==> x in s
    decreases |s|
  {
    if s == [] then []
    else
      var init := FirstOccurrences(s[..|s| - 1]);
      assert s == s[..|s| - 1] + [s[|s| - 1]];
      if s[|s| - 1] in init then init else init + [s[|s| - 1]]
  }

  /** The position of the first occurrence of `x` in `s`. */
  function FirstIndex<T(==)>(s: seq<T>, x: T): (k: nat)
    requires x in s
    ensures k < |s| && s[k] == x
    ensures forall j :: 0 <= j < k ==> s[j] != x
  {
    if s[0] == x then 0 else 1 + FirstIndex(s[1..], x)
  }

  /** The first occurrence of an element found in a prefix lies in that prefix. */
  lemma FirstIndexInPrefix<T>(s: seq<T>, k: nat, x: T)
    requires k <= |s| && x in s[..k]
    ensures FirstIndex(s, x) == FirstIndex(s[..k], x)
  {
    var i := FirstIndex(s[..k], x);
    var j := FirstIndex(s, x);
    assert s[i] == x;
    assert j <= i;
    assert s[..k][j] == x;
  }

  /** Removing repeats leaves no element twice. */
  lemma {:induction false} FirstOccurrencesDistinct<T(!new)>(s: seq<T>)
    ensures NoDuplicates(FirstOccurrences(s))
    decreases |s|
  {
    if s != [] {
      FirstOccurrencesDistinct(s[..|s| - 1]);
    }
  }

  /** Removing repeats keeps the elements in the order of their first occurrences. */
  lemma {:induction false} FirstOccurrencesOrdered<T(!new)>(s: seq<T>)
    ensures forall i, j :: 0 <= i < j < |FirstOccurrences(s)| ==>
      FirstIndex(s, FirstOccurrences(s)[i]) < FirstIndex(s, FirstOccurrences(s)[j])
    decreases |s|
  {
    if s != [] {
      var n := |s| - 1;
      var init := s[..n];
      FirstOccurrencesOrdered(init);
      var r0 := FirstOccurrences(init);
      var r := FirstOccurrences(s);
      forall i, j | 0 <= i < j < |r|
        ensures FirstIndex(s, r[i]) < FirstIndex(s, r[j])
      {
        assert r[i] == r0[i] && r[i] in init;
        FirstIndexInPrefix(s, n, r[i]);
        if j < |r0| {
          assert r[j] == r0[j];
          FirstIndexInPrefix(s, n, r[j]);
          assert FirstIndex(init, r0[i]) < FirstIndex(init, r0[j]);
        } else {
          assert r[j] == s[n] && s[n] !in init;
          assert FirstIndex(s, r[j]) == n;
          assert FirstIndex(s, r[i]) == FirstIndex(init, r[i]) < |init|;
        }
      }
    }
  }

  /** The keys of the elements of `s` strictly increase along `s`. */
  predicate IncreasingBy<T>(s: seq<T>, key: T -> int)
  {
    forall i, j :: 0 <= i < j < |s| ==> key(s[i]) < key(s[j])
  }

  /** Filtering a sequence whose keys increase leaves a sequence whose keys increase. */
  lemma {:induction false} FilterKeepsIncreasing<T(!new)>(s: seq<T>, p: T -> bool, key: T -> int)
    requires IncreasingBy(s, key)
    ensures IncreasingBy(Filter(s, p), key)
    decreases |s|
  {
    if s != [] {
      var init := s[..|s| - 1];
      FilterKeepsIncreasing(init, p, key);
      var r := Filter(s, p);
      if p(s[|s| - 1]) {
        forall i, j | 0 <= i < j < |r|
          ensures key(r[i]) < key(r[j])
        {
          if j == |r| - 1 {
            assert r[i] in Filter(init, p);
            var k :| 0 <= k < |init| && init[k] == r[i];
            assert s[k] == r[i];
          } else {
            assert r[i] == Filter(init, p)[i] && r[j] == Filter(init, p)[j];
          }
        }
      }
    }
  }

  /** In a sequence whose keys increase, a key identifies one element. */
  lemma IncreasingKeysAreUnique<T>(s: seq<T>, key: T -> int, x: T, y: T)
    requires IncreasingBy(s, key)
    requires x in s && y in s && key(x) == key(y)
    ensures x == y
  {
    var i :| 0 <= i < |s| && s[i] == x;
    var j :| 0 <= j < |s| && s[j] == y;
    assert !(i < j) && !(j < i);
  }

  /** Appending an element whose key exceeds every key present keeps the keys increasing. */
  lemma AppendKeepsIncreasing<T>(s: seq<T>, x: T, key: T -> int)
    requires IncreasingBy(s, key)
    requires forall y :: y in s ==> key(y) < key(x)
    ensures IncreasingBy(s + [x], key)
  {
    var r := s + [x];
    forall i, j | 0 <= i < j < |r|
      ensures key(r[i]) < key(r[j])
    {
      assert r[i] == s[i];
      if j == |s| {
        assert r[i] in s;
      } else {
        assert r[j] == s[j];
      }
    }
  }

  /** Filters that agree on the elements of `s` select the same subsequence. */
  lemma {:induction false} FilterCongruent<T(!new)>(s: seq<T>, p: T -> bool, q: T -> bool)
    requires forall x :: x in s ==> p(x) == q(x)
    ensures Filter(s, p) == Filter(s, q)
    decreases |s|
  {
    if s != [] {
      var init := s[..|s| - 1];
      assert forall x :: x in init ==> x in s;
      FilterCongruent(init, p, q);
      assert s[|s| - 1] in s;
    }
  }

  /** A condition no element satisfies keeps nothing. */
  lemma {:induction false} FilterNone<T(!new)>(s: seq<T>, p: T -> bool)
    requires forall x :: x in s ==> !p(x)
    ensures Filter(s, p) == []
    decreases |s|
  {
    if s != [] {
      var init := s[..|s| - 1];
      assert forall x :: x in init ==> x in s;
      FilterNone(init, p);
      assert s[|s| - 1] in s;
    }
  }

  /** A weaker condition keeps at least as many elements, and strictly more as soon as it
      accepts an element the stronger one rejects. */
  lemma {:induction false} FilterMonotone<T(!new)>(s: seq<T>, p: T -> bool, q: T -> bool)
    requires forall x :: p(x) ==> q(x)
    ensures |Filter(s, p)| <= |Filter(s, q)|
    ensures (exists x :: x in s && q(x) && !p(x)) ==> |Filter(s, p)| < |Filter(s, q)|
    decreases |s|
  {
    if s != [] {
      var init := s[..|s| - 1];
      var last := s[|s| - 1];
      FilterMonotone(init, p, q);
      assert s == init + [last];
      if exists x :: x in s && q(x) && !p(x) {
        var x :| x in s && q(x) && !p(x);
        if x != last {
          assert x in init;
        }
      }
    }
  }

  /** Filtering a sequence without repeats leaves a sequence without repeats. */
  lemma {:induction false} FilterDistinct<T(!new)>(s: seq<T>, p: T -> bool)
    requires NoDuplicates(s)
    ensures NoDuplicates(Filter(s, p))
    decreases |s|
  {
    if s != [] {
      var init := s[..|s| - 1];
      var last := s[|s| - 1];
      FilterDistinct(init, p);
      assert forall k :: 0 <= k < |init| ==> init[k] == s[k];
    }
  }

  /** A sequence without repeats has as many elements as the set of its elements. */
  lemma {:induction false} DistinctCardinality<T(!new)>(s: seq<T>)
    requires NoDuplicates(s)
    ensures |set x | x in s| == |s|
    decreases |s|
  {
    if s != [] {
      var init := s[..|s| - 1];
      var last := s[|s| - 1];
      DistinctCardinality(init);
      assert forall k :: 0 <= k < |init| ==> init[k] == s[k];
      assert s == init + [last];
      assert (set x | x in s) == (set x | x in init) + {last};
    }
  }

  /** The elements of `s` that satisfy `p`, as a set. */
  ghost function Selected<T>(s: seq<T>, p: T -> bool): set<T>
  {
    set x | x in s && p(x)
  }

  /** Counting the kept elements of a sequence without repeats counts the elements of the
      sequence that satisfy the condition. */
  lemma FilterCardinality<T(!new)>(s: seq<T>, p: T -> bool)
    requires NoDuplicates(s)
    ensures |Filter(s, p)| == |Selected(s, p)|
  {
    FilterDistinct(s, p);
    DistinctCardinality(Filter(s, p));
    assert (set x | x in Filter(s, p)) == Selected(s, p);
  }

  /** Increasing keys imply no element occurs twice. */
  lemma IncreasingHasNoDuplicates<T>(s: seq<T>, key: T -> int)
    requires IncreasingBy(s, key)
    ensures NoDuplicates(s)
  {
    forall i, j | 0 <= i < j < |s|
      ensures s[i] != s[j]
    {
      assert key(s[i]) < key(s[j]);
    }
  }
}
