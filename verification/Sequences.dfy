/** Sums, filters and sorts of sequences, and what a reordering does to them. */
module Sequences {

  function Sum<T>(s: seq<T>, f: T -> int): int {
    if s == [] then 0 else f(s[0]) + Sum(s[1..], f)
  }

  function Filter<T>(s: seq<T>, keep: T -> bool): (r: seq<T>)
    ensures |r| <= |s|
    ensures forall x :: x in r ==> x in s && keep(x)
  {
    if s == [] then []
    else if keep(s[0]) then [s[0]] + Filter(s[1..], keep)
    else Filter(s[1..], keep)
  }

  function Map<T, U>(s: seq<T>, f: T -> U): (r: seq<U>)
    ensures |r| == |s| && forall i :: 0 <= i < |s| ==> r[i] == f(s[i])
  {
    seq(|s|, i requires 0 <= i < |s| => f(s[i]))
  }

  ghost predicate Distinct<T>(s: seq<T>) {
    forall i, j :: 0 <= i < j < |s| ==> s[i] != s[j]
  }

  ghost predicate Permutation<T>(s: seq<T>, t: seq<T>) {
    multiset(s) == multiset(t)
  }

  lemma {:induction false} SumAppend<T>(s: seq<T>, t: seq<T>, f: T -> int)
    ensures Sum(s + t, f) == Sum(s, f) + Sum(t, f)
  {
    if s == [] {
      assert s + t == t;
    } else {
      SumAppend(s[1..], t, f);
      assert (s + t)[1..] == s[1..] + t;
    }
  }

  lemma SplitAt<T>(t: seq<T>, j: nat)
    requires j < |t|
    ensures t == t[..j] + [t[j]] + t[j + 1..]
    ensures multiset(t) == multiset(t[..j] + t[j + 1..]) + multiset{t[j]}
  {
    assert t == t[..j] + [t[j]] + t[j + 1..];
  }

  lemma SumWithout<T>(t: seq<T>, j: nat, f: T -> int)
    requires j < |t|
    ensures Sum(t, f) == f(t[j]) + Sum(t[..j] + t[j + 1..], f)
  {
    SumAppend(t[..j], t[j..], f);
    assert t == t[..j] + t[j..];
    assert t[j..][1..] == t[j + 1..];
    SumAppend(t[..j], t[j + 1..], f);
  }

  lemma {:induction false} SumPermutation<T>(s: seq<T>, t: seq<T>, f: T -> int)
    requires Permutation(s, t)
    ensures Sum(s, f) == Sum(t, f)
  {
    if s == [] {
      assert |multiset(t)| == 0;
    } else {
      var x := s[0];
      assert s == [x] + s[1..];
      assert x in multiset(t);
      var j :| 0 <= j < |t| && t[j] == x;
      SplitAt(t, j);
      assert multiset(s[1..]) == multiset(s) - multiset{x};
      SumPermutation(s[1..], t[..j] + t[j + 1..], f);
      SumWithout(t, j, f);
    }
  }

  /** Only the values on the members matter. */
  lemma {:induction false} SumSame<T>(s: seq<T>, f: T -> int, g: T -> int)
    requires forall i :: 0 <= i < |s| ==> f(s[i]) == g(s[i])
    ensures Sum(s, f) == Sum(s, g)
  {
    if s != [] { SumSame(s[1..], f, g); }
  }

  lemma {:induction false} SumMap<T, U>(s: seq<T>, m: T -> U, f: U -> int, g: T -> int)
    requires forall i :: 0 <= i < |s| ==> f(m(s[i])) == g(s[i])
    ensures Sum(Map(s, m), f) == Sum(s, g)
  {
    if s != [] {
      SumMap(s[1..], m, f, g);
      assert Map(s, m)[1..] == Map(s[1..], m);
    }
  }

  lemma {:induction false} FilterCount<T>(s: seq<T>, keep: T -> bool, x: T)
    ensures multiset(Filter(s, keep))[x] == if keep(x) then multiset(s)[x] else 0
  {
    if s != [] {
      FilterCount(s[1..], keep, x);
      assert s == [s[0]] + s[1..];
    }
  }

  lemma FilterPermutation<T(!new)>(s: seq<T>, t: seq<T>, keep: T -> bool)
    requires Permutation(s, t)
    ensures Permutation(Filter(s, keep), Filter(t, keep))
  {
    forall x: T
      ensures multiset(Filter(s, keep))[x] == multiset(Filter(t, keep))[x]
    {
      FilterCount(s, keep, x);
      FilterCount(t, keep, x);
    }
  }

  lemma {:induction false} FilterSame<T>(s: seq<T>, keep: T -> bool, keep': T -> bool)
    requires forall i :: 0 <= i < |s| ==> (keep(s[i]) <==> keep'(s[i]))
    ensures Filter(s, keep) == Filter(s, keep')
  {
    if s != [] { FilterSame(s[1..], keep, keep'); }
  }

  lemma {:induction false} FilterAppend<T>(s: seq<T>, x: T, keep: T -> bool)
    ensures Filter(s + [x], keep) == Filter(s, keep) + (if keep(x) then [x] else [])
  {
    if s == [] {
      assert s + [x] == [x];
    } else {
      FilterAppend(s[1..], x, keep);
      assert (s + [x])[1..] == s[1..] + [x];
    }
  }

  lemma {:induction false} FilterKeeps<T>(s: seq<T>, keep: T -> bool, x: T)
    ensures x in Filter(s, keep) <==> x in s && keep(x)
  {
    if s != [] { FilterKeeps(s[1..], keep, x); }
  }

  lemma {:induction false} FilterDistinct<T, U>(s: seq<T>, keep: T -> bool, key: T -> U)
    requires Distinct(Map(s, key))
    ensures Distinct(Map(Filter(s, keep), key))
  {
    if s != [] {
      var ks := Map(s, key);
      assert Map(s[1..], key) == ks[1..];
      FilterDistinct(s[1..], keep, key);
      var f := Filter(s[1..], keep);
      if keep(s[0]) {
        var r := [s[0]] + f;
        forall i, j | 0 <= i < j < |r|
          ensures Map(r, key)[i] != Map(r, key)[j]
        {
          if i == 0 {
            assert r[j] == f[j - 1] && f[j - 1] in f;
            var k :| 0 <= k < |s[1..]| && s[1..][k] == r[j];
            assert ks[0] != ks[k + 1];
          } else {
            assert Map(f, key)[i - 1] != Map(f, key)[j - 1];
          }
        }
      }
    }
  }

  lemma MapPermutation<T(!new), U(!new)>(s: seq<T>, t: seq<T>, f: T -> U)
    requires Permutation(s, t)
    ensures Permutation(Map(s, f), Map(t, f))
  {
    forall u: U
      ensures multiset(Map(s, f))[u] == multiset(Map(t, f))[u]
    {
      MapCount(s, f, u);
      MapCount(t, f, u);
      SumPermutation(s, t, Hit(f, u));
    }
  }

  ghost function Hit<T, U>(f: T -> U, u: U): T -> int {
    x => if f(x) == u then 1 else 0
  }

  lemma {:induction false} MapCount<T, U>(s: seq<T>, f: T -> U, u: U)
    ensures multiset(Map(s, f))[u] == Sum(s, Hit(f, u))
  {
    if s != [] {
      MapCount(s[1..], f, u);
      assert Map(s, f) == [f(s[0])] + Map(s[1..], f);
    }
  }

  /** Distinct sequences with the same members are reorderings of each other. */
  lemma {:induction false} DistinctSameMembers<T(!new)>(s: seq<T>, t: seq<T>)
    requires Distinct(s) && Distinct(t) && forall x :: x in s <==> x in t
    ensures Permutation(s, t)
  {
    forall x: T
      ensures multiset(s)[x] == multiset(t)[x]
    {
      DistinctCount(s, x);
      DistinctCount(t, x);
    }
  }

  lemma {:induction false} DistinctCount<T(!new)>(s: seq<T>, x: T)
    requires Distinct(s)
    ensures multiset(s)[x] == if x in s then 1 else 0
  {
    if s != [] {
      DistinctCount(s[1..], x);
      assert s == [s[0]] + s[1..];
      if s[0] == x {
        assert x !in s[1..];
      }
    }
  }

  lemma PermutationMembers<T(!new)>(s: seq<T>, t: seq<T>)
    requires Permutation(s, t)
    ensures |s| == |t| && forall x :: x in s <==> x in t
  {
    assert |s| == |multiset(s)| && |t| == |multiset(t)|;
    forall x ensures x in s <==> x in t {
      assert x in multiset(s) <==> x in multiset(t);
    }
  }

  lemma {:induction false} PermutationDistinct<T(!new)>(s: seq<T>, t: seq<T>)
    requires Permutation(s, t) && Distinct(s)
    ensures Distinct(t)
  {
    forall i, j | 0 <= i < j < |t|
      ensures t[i] != t[j]
    {
      if t[i] == t[j] {
        DistinctCount(s, t[i]);
        RepeatCount(t, i, j);
        assert false;
      }
    }
  }

  lemma RepeatCount<T>(t: seq<T>, i: nat, j: nat)
    requires i < j < |t| && t[i] == t[j]
    ensures multiset(t)[t[i]] >= 2
  {
    SplitAt(t, j);
    assert (t[..j] + t[j + 1..])[i] == t[i];
    assert t[i] in multiset(t[..j] + t[j + 1..]);
  }

  // ------------------------------------------------------------------ sorting

  function Insert<T>(x: T, s: seq<T>, le: (T, T) -> bool): (r: seq<T>)
    ensures multiset(r) == multiset(s) + multiset{x}
  {
    if s == [] then [x]
    else if le(x, s[0]) then [x] + s
    else
      assert s == [s[0]] + s[1..];
      [s[0]] + Insert(x, s[1..], le)
  }

  function Sort<T>(s: seq<T>, le: (T, T) -> bool): (r: seq<T>)
    ensures multiset(r) == multiset(s)
  {
    if s == [] then []
    else
      assert s == [s[0]] + s[1..];
      Insert(s[0], Sort(s[1..], le), le)
  }

  ghost predicate Sorted<T>(s: seq<T>, le: (T, T) -> bool) {
    forall i, j :: 0 <= i < j < |s| ==> le(s[i], s[j])
  }

  ghost predicate TotalPreorder<T(!new)>(le: (T, T) -> bool) {
    && (forall x, y :: le(x, y) || le(y, x))
    && (forall x, y, z :: le(x, y) && le(y, z) ==> le(x, z))
  }

  lemma {:induction false} InsertSorted<T(!new)>(x: T, s: seq<T>, le: (T, T) -> bool)
    requires TotalPreorder(le) && Sorted(s, le)
    ensures Sorted(Insert(x, s, le), le)
  {
    if s != [] && !le(x, s[0]) {
      InsertSorted(x, s[1..], le);
      var r := Insert(x, s[1..], le);
      forall k | 0 <= k < |r|
        ensures le(s[0], r[k])
      {
        assert r[k] in multiset(r);
        if r[k] != x {
          assert r[k] in multiset(s[1..]);
          var i :| 0 <= i < |s[1..]| && s[1..][i] == r[k];
        }
      }
    }
  }

  lemma {:induction false} SortSorted<T(!new)>(s: seq<T>, le: (T, T) -> bool)
    requires TotalPreorder(le)
    ensures Sorted(Sort(s, le), le)
  {
    if s != [] {
      SortSorted(s[1..], le);
      InsertSorted(s[0], Sort(s[1..], le), le);
    }
  }

  ghost predicate TieFree<T(!new)>(s: seq<T>, le: (T, T) -> bool) {
    forall x, y :: x in s && y in s && le(x, y) && le(y, x) ==> x == y
  }

  lemma HeadLeast<T>(s: seq<T>, x: T, le: (T, T) -> bool)
    requires Sorted(s, le) && x in s && le(x, x)
    ensures le(s[0], x)
  {
    var i :| 0 <= i < |s| && s[i] == x;
  }

  lemma HeadsAgree<T(!new)>(s: seq<T>, t: seq<T>, le: (T, T) -> bool)
    requires s != [] && Permutation(s, t) && Sorted(s, le) && Sorted(t, le) && TotalPreorder(le) && TieFree(s, le)
    ensures t != [] && s[0] == t[0]
  {
    PermutationMembers(s, t);
    HeadLeast(s, t[0], le);
    HeadLeast(t, s[0], le);
  }

  lemma TailsAgree<T>(s: seq<T>, t: seq<T>)
    requires s != [] && t != [] && s[0] == t[0] && Permutation(s, t)
    ensures Permutation(s[1..], t[1..])
  {
    assert s == [s[0]] + s[1..] && t == [s[0]] + t[1..];
    assert multiset(s[1..]) == multiset(s) - multiset{s[0]};
    assert multiset(t[1..]) == multiset(t) - multiset{s[0]};
  }

  lemma {:induction false} SortedUnique<T(!new)>(s: seq<T>, t: seq<T>, le: (T, T) -> bool)
    requires Permutation(s, t) && Sorted(s, le) && Sorted(t, le) && TotalPreorder(le) && TieFree(s, le)
    ensures s == t
  {
    if s == [] {
      PermutationMembers(s, t);
    } else {
      HeadsAgree(s, t, le);
      TailsAgree(s, t);
      SortedUnique(s[1..], t[1..], le);
      assert s == [s[0]] + s[1..] && t == [s[0]] + t[1..];
    }
  }

  /** Sorting forgets the order of arrival when no two members tie. */
  lemma SortPermutation<T(!new)>(s: seq<T>, t: seq<T>, le: (T, T) -> bool)
    requires Permutation(s, t) && TotalPreorder(le) && TieFree(s, le)
    ensures Sort(s, le) == Sort(t, le)
  {
    SortSorted(s, le);
    SortSorted(t, le);
    PermutationMembers(s, Sort(s, le));
    SortedUnique(Sort(s, le), Sort(t, le), le);
  }
}
