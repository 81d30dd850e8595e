/** Filtering, sorting and distinctness of sequences. */
module Sequences {

  function Last<T>(s: seq<T>): T
    requires s != []
  {
    s[|s| - 1]
  }

  function DropLast<T>(s: seq<T>): seq<T>
    requires s != []
  {
    s[..|s| - 1]
  }

  ghost predicate NoDup<T>(s: seq<T>) {
    s == [] || (NoDup(DropLast(s)) && Last(s) !in DropLast(s))
  }

  lemma NoDupPush<T>(s: seq<T>, x: T)
    ensures NoDup(s + [x]) <==> NoDup(s) && x !in s
  {
    assert DropLast(s + [x]) == s;
  }

  lemma {:induction false} NoDupAt<T>(s: seq<T>, i: nat, j: nat)
    requires NoDup(s) && i < j < |s|
    ensures s[i] != s[j]
  {
    if j == |s| - 1 {
      assert s[i] in DropLast(s);
    } else {
      NoDupAt(DropLast(s), i, j);
    }
  }

  lemma {:induction false} NoDupConcat<T>(s: seq<T>, t: seq<T>)
    ensures NoDup(s + t) <==> NoDup(s) && NoDup(t) && forall x :: x in s ==> x !in t
  {
    if t == [] {
      assert s + t == s;
    } else {
      var init, last := DropLast(t), Last(t);
      assert t == init + [last];
      assert s + t == (s + init) + [last];
      NoDupPush(s + init, last);
      NoDupPush(init, last);
      NoDupConcat(s, init);
    }
  }

  /** The elements that satisfy `keep`, in order. */
  function Filter<T>(s: seq<T>, keep: T -> bool): (r: seq<T>)
    ensures |r| <= |s|
  {
    if s == [] then []
    else Filter(DropLast(s), keep) + if keep(Last(s)) then [Last(s)] else []
  }

  function Map<T, U>(s: seq<T>, f: T -> U): (r: seq<U>)
    ensures |r| == |s|
  {
    if s == [] then [] else Map(DropLast(s), f) + [f(Last(s))]
  }

  lemma {:induction false} MapAt<T, U>(s: seq<T>, f: T -> U, i: nat)
    requires i < |s|
    ensures Map(s, f)[i] == f(s[i])
  {
    if i < |s| - 1 {
      MapAt(DropLast(s), f, i);
    }
  }

  lemma {:induction false} FilterMember<T>(s: seq<T>, keep: T -> bool, x: T)
    ensures x in Filter(s, keep) <==> x in s && keep(x)
  {
    if s != [] {
      assert s == DropLast(s) + [Last(s)];
      FilterMember(DropLast(s), keep, x);
    }
  }

  lemma FilterMembers<T>(s: seq<T>, keep: T -> bool)
    ensures forall x :: x in Filter(s, keep) ==> x in s && keep(x)
    ensures forall x :: x in s && keep(x) ==> x in Filter(s, keep)
  {
    forall x | x in Filter(s, keep) ensures x in s && keep(x) {
      FilterMember(s, keep, x);
    }
    forall x | x in s && keep(x) ensures x in Filter(s, keep) {
      FilterMember(s, keep, x);
    }
  }

  lemma FilterPush<T>(s: seq<T>, x: T, keep: T -> bool)
    ensures Filter(s + [x], keep) == Filter(s, keep) + if keep(x) then [x] else []
  {
    assert DropLast(s + [x]) == s;
  }

  lemma {:induction false} FilterConcat<T>(s: seq<T>, t: seq<T>, keep: T -> bool)
    ensures Filter(s + t, keep) == Filter(s, keep) + Filter(t, keep)
  {
    if t == [] {
      assert s + t == s;
    } else {
      assert s + t == (s + DropLast(t)) + [Last(t)];
      FilterPush(s + DropLast(t), Last(t), keep);
      FilterConcat(s, DropLast(t), keep);
    }
  }

  /** Two filters that agree on every element give the same sequence. */
  lemma {:induction false} FilterCongruence<T>(s: seq<T>, p: T -> bool, q: T -> bool)
    requires forall x :: x in s ==> p(x) == q(x)
    ensures Filter(s, p) == Filter(s, q)
  {
    if s != [] {
      assert Last(s) in s;
      forall x | x in DropLast(s) ensures x in s {}
      FilterCongruence(DropLast(s), p, q);
    }
  }

  /** Filtering twice is filtering once by the conjunction. */
  lemma {:induction false} FilterFilter<T>(s: seq<T>, p: T -> bool, q: T -> bool, both: T -> bool)
    requires forall x :: x in s ==> both(x) == (p(x) && q(x))
    ensures Filter(Filter(s, p), q) == Filter(s, both)
  {
    if s != [] {
      var init, x := DropLast(s), Last(s);
      assert x in s;
      forall y | y in init ensures y in s {}
      FilterFilter(init, p, q, both);
      if p(x) {
        FilterPush(Filter(init, p), x, q);
      } else {
        assert Filter(s, p) == Filter(init, p);
      }
    }
  }

  lemma {:induction false} FilterAll<T>(s: seq<T>, keep: T -> bool)
    requires forall x :: x in s ==> keep(x)
    ensures Filter(s, keep) == s
  {
    if s != [] {
      assert Last(s) in s;
      forall x | x in DropLast(s) ensures keep(x) {
        assert x in s;
      }
      FilterAll(DropLast(s), keep);
      assert Filter(s, keep) == Filter(DropLast(s), keep) + [Last(s)];
    }
  }

  lemma {:induction false} FilterNone<T>(s: seq<T>, keep: T -> bool)
    requires forall x :: x in s ==> !keep(x)
    ensures Filter(s, keep) == []
  {
    if s != [] {
      assert Last(s) in s;
      forall x | x in DropLast(s) ensures x in s {}
      FilterNone(DropLast(s), keep);
    }
  }

  /** A dropped element can be taken out first. */
  lemma FilterWithout<T>(a: seq<T>, x: T, b: seq<T>, p: T -> bool, q: T -> bool)
    requires !p(x) && forall y :: y in a + b ==> p(y) == q(y)
    ensures Filter(a + [x] + b, p) == Filter(a + b, q)
  {
    FilterConcat(a + [x], b, p);
    FilterPush(a, x, p);
    FilterConcat(a, b, p);
    FilterCongruence(a + b, p, q);
  }

  lemma {:induction false} FilterNoDup<T>(s: seq<T>, keep: T -> bool)
    requires NoDup(s)
    ensures NoDup(Filter(s, keep))
  {
    if s != [] {
      FilterNoDup(DropLast(s), keep);
      if keep(Last(s)) {
        FilterMember(DropLast(s), keep, Last(s));
        NoDupPush(Filter(DropLast(s), keep), Last(s));
      } else {
        assert Filter(s, keep) == Filter(DropLast(s), keep);
      }
    }
  }

  // ----- sequences whose elements are pairwise related -----

  ghost predicate Pair<T>(s: seq<T>, rel: (T, T) -> bool, i: int, j: int) {
    0 <= i < j < |s| ==> rel(s[i], s[j])
  }

  ghost predicate Pairwise<T>(s: seq<T>, rel: (T, T) -> bool) {
    forall i, j :: Pair(s, rel, i, j)
  }

  lemma PairwisePush<T>(s: seq<T>, x: T, rel: (T, T) -> bool)
    requires Pairwise(s, rel) && forall y :: y in s ==> rel(y, x)
    ensures Pairwise(s + [x], rel)
  {
    forall i, j ensures Pair(s + [x], rel, i, j) {
      assert Pair(s, rel, i, j);
    }
  }

  lemma PairwisePrefix<T>(s: seq<T>, x: T, rel: (T, T) -> bool)
    requires Pairwise(s + [x], rel)
    ensures Pairwise(s, rel)
  {
    forall i, j ensures Pair(s, rel, i, j) {
      assert Pair(s + [x], rel, i, j);
    }
  }

  lemma PairwiseWithout<T>(s: seq<T>, m: nat, rel: (T, T) -> bool)
    requires Pairwise(s, rel) && m < |s|
    ensures Pairwise(s[..m] + s[m + 1..], rel)
  {
    var t := s[..m] + s[m + 1..];
    forall i, j ensures Pair(t, rel, i, j) {
      assert Pair(s, rel, if i < m then i else i + 1, if j < m then j else j + 1);
    }
  }

  lemma {:induction false} PairwiseFilter<T>(s: seq<T>, keep: T -> bool, rel: (T, T) -> bool)
    requires Pairwise(s, rel)
    ensures Pairwise(Filter(s, keep), rel)
  {
    if s != [] {
      var init, x := DropLast(s), Last(s);
      assert s == init + [x];
      PairwisePrefix(init, x, rel);
      PairwiseFilter(init, keep, rel);
      if keep(x) {
        FilterMembers(init, keep);
        forall y | y in Filter(init, keep) ensures rel(y, x) {
          var i :| 0 <= i < |init| && init[i] == y;
          assert Pair(s, rel, i, |s| - 1);
        }
        PairwisePush(Filter(init, keep), x, rel);
      } else {
        assert Filter(s, keep) == Filter(init, keep);
      }
    }
  }

  /** Relations that agree on the elements of `s` relate it alike. */
  lemma PairwiseCongruence<T>(s: seq<T>, rel: (T, T) -> bool, other: (T, T) -> bool)
    requires Pairwise(s, rel) && forall x, y :: x in s && y in s ==> rel(x, y) == other(x, y)
    ensures Pairwise(s, other)
  {
    forall i, j ensures Pair(s, other, i, j) {
      assert Pair(s, rel, i, j);
    }
  }

  /** A relation a stable sort can work with. */
  ghost predicate TotalPreorder<T(!new)>(leq: (T, T) -> bool) {
    && (forall a, b :: leq(a, b) || leq(b, a))
    && (forall a, b, c :: leq(a, b) && leq(b, c) ==> leq(a, c))
  }

  ghost predicate SortedBy<T>(s: seq<T>, leq: (T, T) -> bool) {
    forall i, j :: 0 <= i < j < |s| ==> leq(s[i], s[j])
  }

  /** Inserts `x` after every element not above it. */
  function InsertSorted<T>(s: seq<T>, x: T, leq: (T, T) -> bool): (r: seq<T>)
    ensures multiset(r) == multiset(s) + multiset{x}
  {
    if s == [] then
      [x]
    else
      assert s == DropLast(s) + [Last(s)];
      if leq(Last(s), x) then s + [x]
      else InsertSorted(DropLast(s), x, leq) + [Last(s)]
  }

  /** ORDER BY: a permutation of `s`; sortedness is `SortBySorts`. */
  function SortBy<T>(s: seq<T>, leq: (T, T) -> bool): (r: seq<T>)
    ensures multiset(r) == multiset(s)
  {
    if s == [] then
      []
    else
      assert s == DropLast(s) + [Last(s)];
      InsertSorted(SortBy(DropLast(s), leq), Last(s), leq)
  }

  lemma {:induction false} InsertSortedSorts<T(!new)>(s: seq<T>, x: T, leq: (T, T) -> bool)
    requires TotalPreorder(leq) && SortedBy(s, leq)
    ensures SortedBy(InsertSorted(s, x, leq), leq)
  {
    if s != [] {
      if leq(Last(s), x) {
        forall i | 0 <= i < |s| ensures leq(s[i], x) {
          assert leq(s[i], Last(s)) || i == |s| - 1;
        }
      } else {
        InsertSortedSorts(DropLast(s), x, leq);
        var t := InsertSorted(DropLast(s), x, leq);
        forall i | 0 <= i < |t| ensures leq(t[i], Last(s)) {
          assert t[i] in multiset(t);
          assert t[i] in DropLast(s) || t[i] == x;
        }
      }
    }
  }

  lemma {:induction false} SortBySorts<T(!new)>(s: seq<T>, leq: (T, T) -> bool)
    requires TotalPreorder(leq)
    ensures SortedBy(SortBy(s, leq), leq)
  {
    if s != [] {
      SortBySorts(DropLast(s), leq);
      InsertSortedSorts(SortBy(DropLast(s), leq), Last(s), leq);
    }
  }

  /** A sequence has no repetitions iff nothing occurs twice in its multiset. */
  lemma {:induction false} NoDupIff<T>(s: seq<T>)
    ensures NoDup(s) <==> forall x :: x in s ==> multiset(s)[x] == 1
  {
    if s != [] {
      var init, last := DropLast(s), Last(s);
      assert s == init + [last];
      NoDupIff(init);
      if NoDup(s) {
        forall x | x in s ensures multiset(s)[x] == 1 {
          assert x in init || x == last;
        }
      }
      if forall x :: x in s ==> multiset(s)[x] == 1 {
        assert last in s && last !in multiset(init);
        forall x | x in init ensures multiset(init)[x] == 1 {
          assert x in s;
        }
      }
    }
  }

  /** A permutation of a sequence without repetitions has none either. */
  lemma PermutationNoDup<T>(s: seq<T>, t: seq<T>)
    requires NoDup(s) && multiset(s) == multiset(t)
    ensures NoDup(t)
  {
    NoDupIff(s);
    NoDupIff(t);
    forall x | x in t ensures multiset(t)[x] == 1 {
      assert x in multiset(t);
      assert x in s;
    }
  }
}
