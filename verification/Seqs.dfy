/** Sequence functions that stand for Python's comprehensions, `sorted` and dict building. */
module Seqs {
  function Filter<T>(keep: T -> bool, s: seq<T>): (r: seq<T>)
  {
    if s == [] then []
    else (if keep(s[0]) then [s[0]] else []) + Filter(keep, s[1..])
  }

  lemma {:induction false} FilterMember<T>(keep: T -> bool, s: seq<T>, x: T)
    ensures x in Filter(keep, s) <==> x in s && keep(x)
  {
    if s != [] {
      FilterMember(keep, s[1..], x);
      assert s == [s[0]] + s[1..];
    }
  }

  lemma FilterHead<T>(keep: T -> bool, s: seq<T>)
    requires s != []
    ensures Filter(keep, s) == (if keep(s[0]) then [s[0]] else []) + Filter(keep, s[1..])
  {
  }

  lemma {:induction false} FilterConcat<T>(keep: T -> bool, s: seq<T>, t: seq<T>)
    ensures Filter(keep, s + t) == Filter(keep, s) + Filter(keep, t)
  {
    hide Filter;
    if s == [] {
      FilterNone(keep, s);
      assert s + t == t;
      assert [] + Filter(keep, t) == Filter(keep, t);
    } else {
      FilterConcat(keep, s[1..], t);
      FilterHead(keep, s);
      FilterHead(keep, s + t);
      assert (s + t)[1..] == s[1..] + t;
      var head := if keep(s[0]) then [s[0]] else [];
      assert head + (Filter(keep, s[1..]) + Filter(keep, t)) == head + Filter(keep, s[1..]) + Filter(keep, t);
    }
  }

  lemma {:induction false} FilterAll<T>(keep: T -> bool, s: seq<T>)
    requires forall x :: x in s ==> keep(x)
    ensures Filter(keep, s) == s
  {
    if s != [] {
      assert s[0] in s;
      FilterAll(keep, s[1..]);
      assert s == [s[0]] + s[1..];
    }
  }

  lemma {:induction false} FilterNone<T>(keep: T -> bool, s: seq<T>)
    requires forall x :: x in s ==> !keep(x)
    ensures Filter(keep, s) == []
  {
    if s != [] {
      assert s[0] in s;
      FilterNone(keep, s[1..]);
    }
  }

  lemma FilterTwice<T>(keep: T -> bool, s: seq<T>)
    ensures Filter(keep, Filter(keep, s)) == Filter(keep, s)
  {
    forall x | x in Filter(keep, s) ensures keep(x) {
      FilterMember(keep, s, x);
    }
    FilterAll(keep, Filter(keep, s));
  }

  predicate Distinct<T(==)>(s: seq<T>) {
    forall i, j :: 0 <= i < j < |s| ==> s[i] != s[j]
  }

  // --- sorted(s, key=...) ------------------------------------------------------------

  ghost predicate SortedBy<T>(key: T -> int, s: seq<T>) {
    s != [] ==> (forall x :: x in s ==> key(s[0]) <= key(x)) && SortedBy(key, s[1..])
  }

  lemma {:induction false} SortedPair<T>(key: T -> int, s: seq<T>, i: nat, j: nat)
    requires SortedBy(key, s) && i < j < |s|
    ensures key(s[i]) <= key(s[j])
  {
    if i == 0 {
      assert s[j] in s;
    } else {
      SortedPair(key, s[1..], i - 1, j - 1);
    }
  }

  function InsertBy<T>(key: T -> int, x: T, s: seq<T>): (r: seq<T>)
  {
    if s == [] then [x]
    else if key(x) <= key(s[0]) then [x] + s
    else [s[0]] + InsertBy(key, x, s[1..])
  }

  /** A stable ascending sort: equal keys keep their order. */
  function SortBy<T>(key: T -> int, s: seq<T>): (r: seq<T>)
  {
    if s == [] then [] else InsertBy(key, s[0], SortBy(key, s[1..]))
  }

  lemma {:induction false} InsertByMembers<T>(key: T -> int, x: T, s: seq<T>)
    ensures multiset(InsertBy(key, x, s)) == multiset{x} + multiset(s)
    ensures forall y :: y in InsertBy(key, x, s) <==> y == x || y in s
  {
    if s != [] {
      assert s == [s[0]] + s[1..];
      InsertByMembers(key, x, s[1..]);
    }
  }

  lemma {:induction false} InsertByKeeps<T>(key: T -> int, x: T, s: seq<T>)
    requires SortedBy(key, s)
    ensures SortedBy(key, InsertBy(key, x, s))
  {
    var r := InsertBy(key, x, s);
    InsertByMembers(key, x, s);
    if s == [] {
      assert r[1..] == [];
    } else if key(x) <= key(s[0]) {
      assert r[1..] == s;
    } else {
      InsertByKeeps(key, x, s[1..]);
      assert r[1..] == InsertBy(key, x, s[1..]);
    }
  }

  /** `sorted` returns a permutation of its argument, ordered by the key. */
  lemma {:induction false} SortByIsSort<T>(key: T -> int, s: seq<T>)
    ensures SortedBy(key, SortBy(key, s))
    ensures multiset(SortBy(key, s)) == multiset(s)
    ensures |SortBy(key, s)| == |s|
    ensures forall x :: x in SortBy(key, s) <==> x in s
  {
    if s != [] {
      SortByIsSort(key, s[1..]);
      InsertByKeeps(key, s[0], SortBy(key, s[1..]));
      InsertByMembers(key, s[0], SortBy(key, s[1..]));
      assert s == [s[0]] + s[1..];
    }
    var r := SortBy(key, s);
    assert |multiset(r)| == |r| && |multiset(s)| == |s|;
    forall x ensures x in r <==> x in s {
      assert x in r <==> x in multiset(r);
      assert x in s <==> x in multiset(s);
    }
  }

  lemma {:induction false} DistinctCounts<T>(s: seq<T>)
    ensures Distinct(s) <==> forall x :: multiset(s)[x] <= 1
  {
    if s != [] {
      var tail := s[1..];
      assert s == [s[0]] + tail;
      DistinctCounts(tail);
      if Distinct(s) {
        assert s[0] !in tail && s[0] !in multiset(tail);
      } else if Distinct(tail) {
        assert s[0] in tail;
        assert multiset(s)[s[0]] >= 2;
      } else {
        var x :| multiset(tail)[x] > 1;
        assert multiset(s)[x] > 1;
      }
    }
  }

  lemma SortByDistinct<T>(key: T -> int, s: seq<T>)
    requires Distinct(s)
    ensures Distinct(SortBy(key, s))
  {
    SortByIsSort(key, s);
    DistinctCounts(s);
    DistinctCounts(SortBy(key, s));
  }
}
