/** What sort.SliceStable promises, as a function, and why a strict order leaves it no choice. */
module Sorting {
  import opened Prelude

  type Before<!T> = (T, T) -> bool

  ghost predicate StrictWeakOrder<T(!new)>(before: Before<T>) {
    && (forall x :: !before(x, x))
    && (forall x, y, z :: before(x, y) && before(y, z) ==> before(x, z))
    && (forall x, y, z :: before(x, z) ==> before(x, y) || before(y, z))
  }

  /** No element belongs before an earlier one. */
  ghost predicate Sorted<T(!new)>(s: seq<T>, before: Before<T>) {
    forall i, j :: 0 <= i < j < |s| ==> !before(s[j], s[i])
  }

  ghost predicate StrictlySorted<T(!new)>(s: seq<T>, before: Before<T>) {
    forall i, j :: 0 <= i < j < |s| ==> before(s[i], s[j])
  }

  /** Put x in front of everything it is tied with. */
  function Insert<T>(x: T, s: seq<T>, before: Before<T>): (r: seq<T>)
    ensures |r| == |s| + 1
  {
    if s != [] && before(s[0], x) then [s[0]] + Insert(x, s[1..], before) else [x] + s
  }

  function StableSort<T>(s: seq<T>, before: Before<T>): (r: seq<T>)
    ensures |r| == |s|
  {
    if s == [] then [] else Insert(s[0], StableSort(s[1..], before), before)
  }

  lemma {:induction false} InsertPermutes<T>(x: T, s: seq<T>, before: Before<T>)
    ensures multiset(Insert(x, s, before)) == multiset(s) + multiset{x}
  {
    if s != [] && before(s[0], x) {
      InsertPermutes(x, s[1..], before);
      assert s == [s[0]] + s[1..];
    }
  }

  lemma {:induction false} StableSortPermutes<T>(s: seq<T>, before: Before<T>)
    ensures multiset(StableSort(s, before)) == multiset(s)
  {
    if s != [] {
      StableSortPermutes(s[1..], before);
      InsertPermutes(s[0], StableSort(s[1..], before), before);
      assert s == [s[0]] + s[1..];
    }
  }

  lemma MultisetLength<T>(a: seq<T>, b: seq<T>)
    requires multiset(a) == multiset(b)
    ensures |a| == |b|
  {
    assert |multiset(a)| == |a| && |multiset(b)| == |b|;
  }

  lemma SameMembers<T>(a: seq<T>, b: seq<T>)
    requires multiset(a) == multiset(b)
    ensures forall x :: x in a <==> x in b
  {
    assert forall x :: x in a <==> x in multiset(a);
    assert forall x :: x in b <==> x in multiset(b);
  }

  lemma SortedCons<T(!new)>(h: T, rest: seq<T>, before: Before<T>)
    requires Sorted(rest, before)
    requires forall y :: y in rest ==> !before(y, h)
    ensures Sorted([h] + rest, before)
  {
  }

  lemma {:induction false} InsertSorted<T(!new)>(x: T, s: seq<T>, before: Before<T>)
    requires StrictWeakOrder(before) && Sorted(s, before)
    ensures Sorted(Insert(x, s, before), before)
  {
    if s != [] && before(s[0], x) {
      var rest := Insert(x, s[1..], before);
      InsertSorted(x, s[1..], before);
      InsertPermutes(x, s[1..], before);
      SameMembers(rest, s[1..] + [x]);
      forall y | y in rest ensures !before(y, s[0]) {
        assert y == x || y in s[1..];
        assert !before(x, s[0]) by { assert before(x, s[0]) ==> before(x, x); }
      }
      SortedCons(s[0], rest, before);
    } else {
      if s != [] {
        var h := s[0];
        forall y | y in s ensures !before(y, x) {
          assert !before(y, h);
        }
      }
      SortedCons(x, s, before);
    }
  }

  lemma {:induction false} StableSortSorted<T(!new)>(s: seq<T>, before: Before<T>)
    requires StrictWeakOrder(before)
    ensures Sorted(StableSort(s, before), before)
  {
    if s != [] {
      StableSortSorted(s[1..], before);
      InsertSorted(s[0], StableSort(s[1..], before), before);
    }
  }

  /** The head of a stable sort is the first of the elements nothing belongs before. */
  lemma {:induction false} StableSortHead<T(!new)>(s: seq<T>, before: Before<T>) returns (i: nat)
    requires StrictWeakOrder(before) && s != []
    ensures i < |s| && StableSort(s, before)[0] == s[i]
    ensures forall j :: 0 <= j < |s| ==> !before(s[j], s[i])
    ensures forall j :: 0 <= j < i ==> before(s[i], s[j])
  {
    i := 0;
    var x, rest := s[0], s[1..];
    if rest != [] {
      var k := StableSortHead(rest, before);
      var r := rest[k];
      assert forall j :: 0 < j < |s| ==> s[j] == rest[j - 1];
      if before(r, x) {
        i := k + 1;
        assert !before(x, r) by { assert before(x, r) ==> before(x, x); }
      } else {
        forall j | 0 < j < |s| ensures !before(s[j], x) {
          assert !before(s[j], r);
        }
      }
    }
  }

  function Filter<T>(s: seq<T>, p: T -> bool): seq<T> {
    if s == [] then [] else (if p(s[0]) then [s[0]] else []) + Filter(s[1..], p)
  }

  /** A stable sort keeps the order of elements it does not distinguish. */
  lemma {:induction false} StableSortKeepsClass<T(!new)>(s: seq<T>, before: Before<T>, p: T -> bool)
    requires forall x, y :: p(x) && p(y) ==> !before(x, y)
    ensures Filter(StableSort(s, before), p) == Filter(s, p)
  {
    if s != [] {
      StableSortKeepsClass(s[1..], before, p);
      InsertKeepsClass(s[0], StableSort(s[1..], before), before, p);
    }
  }

  lemma FilterCons<T>(x: T, s: seq<T>, p: T -> bool)
    ensures Filter([x] + s, p) == if p(x) then [x] + Filter(s, p) else Filter(s, p)
  {
    assert ([x] + s)[1..] == s;
  }

  lemma {:induction false} InsertKeepsClass<T(!new)>(x: T, s: seq<T>, before: Before<T>, p: T -> bool)
    requires forall y, z :: p(y) && p(z) ==> !before(y, z)
    ensures Filter(Insert(x, s, before), p) == if p(x) then [x] + Filter(s, p) else Filter(s, p)
  {
    hide Filter;
    if s != [] && before(s[0], x) {
      var y, rest := s[0], s[1..];
      assert !(p(x) && p(y));
      InsertKeepsClass(x, rest, before, p);
      FilterCons(y, Insert(x, rest, before), p);
      FilterCons(y, rest, p);
      assert s == [y] + rest;
    } else {
      FilterCons(x, s, p);
    }
  }

  lemma {:induction false} FilterHead<T>(s: seq<T>, p: T -> bool, i: nat)
    requires i < |s| && p(s[i]) && forall j :: 0 <= j < i ==> !p(s[j])
    ensures Filter(s, p) != [] && Filter(s, p)[0] == s[i]
  {
    if i > 0 { FilterHead(s[1..], p, i - 1); }
  }

  /** Distinct sequences with the same members are permutations of each other. */
  lemma DistinctSameMembers<T(!new)>(a: seq<T>, b: seq<T>)
    requires Distinct(a) && Distinct(b) && forall x :: x in a <==> x in b
    ensures multiset(a) == multiset(b)
  {
    forall x ensures multiset(a)[x] == multiset(b)[x] {
      DistinctCount(a, x);
      DistinctCount(b, x);
      assert x in multiset(a) <==> x in a;
      assert x in multiset(b) <==> x in b;
    }
  }

  lemma {:induction false} DistinctCount<T(!new)>(s: seq<T>, x: T)
    requires Distinct(s)
    ensures multiset(s)[x] <= 1
  {
    if s != [] {
      DistinctCount(s[1..], x);
      assert s == [s[0]] + s[1..];
      assert s[0] !in s[1..];
    }
  }

  lemma RepeatedCount<T>(s: seq<T>, i: nat, j: nat)
    requires i < j < |s|
    ensures s[i] == s[j] ==> multiset(s)[s[i]] >= 2
  {
    assert s == s[..i] + [s[i]] + s[i + 1..j] + [s[j]] + s[j + 1..];
  }

  lemma MultisetDistinct<T(!new)>(a: seq<T>, b: seq<T>)
    requires multiset(a) == multiset(b) && Distinct(a)
    ensures Distinct(b)
  {
    forall i, j | 0 <= i < j < |b| ensures b[i] != b[j] {
      DistinctCount(a, b[i]);
      RepeatedCount(b, i, j);
    }
  }

  lemma HeadComesFirst<T(!new)>(s: seq<T>, x: T, before: Before<T>)
    requires StrictlySorted(s, before) && x in s
    ensures x == s[0] || before(s[0], x)
  {
  }

  /** Two strictly sorted arrangements of the same elements are the same sequence. */
  lemma {:induction false} StrictlySortedUnique<T(!new)>(a: seq<T>, b: seq<T>, before: Before<T>)
    requires StrictWeakOrder(before)
    requires multiset(a) == multiset(b)
    requires StrictlySorted(a, before) && StrictlySorted(b, before)
    ensures a == b
  {
    MultisetLength(a, b);
    if a != [] {
      SameMembers(a, b);
      HeadComesFirst(a, b[0], before);
      HeadComesFirst(b, a[0], before);
      assert a[0] == b[0];
      RemoveHead(a);
      RemoveHead(b);
      StrictlySortedUnique(a[1..], b[1..], before);
      assert a == [a[0]] + a[1..] && b == [b[0]] + b[1..];
    }
  }

  lemma RemoveHead<T>(s: seq<T>)
    requires s != []
    ensures multiset(s[1..]) == multiset(s) - multiset{s[0]}
  {
    assert s == [s[0]] + s[1..];
  }

  /** Mapping to sort keys commutes with sorting by them. */
  lemma {:induction false} SortCommutesWithMap<S(!new), T>(s: seq<S>, byKey: Before<S>, f: S -> T, before: Before<T>)
    requires forall a, b :: byKey(a, b) == before(f(a), f(b))
    ensures Map(StableSort(s, byKey), f) == StableSort(Map(s, f), before)
  {
    if s != [] {
      SortCommutesWithMap(s[1..], byKey, f, before);
      assert Map(s, f)[1..] == Map(s[1..], f);
      InsertCommutesWithMap(s[0], StableSort(s[1..], byKey), byKey, f, before);
    }
  }

  lemma {:induction false} InsertCommutesWithMap<S(!new), T>(x: S, s: seq<S>, byKey: Before<S>, f: S -> T, before: Before<T>)
    requires forall a, b :: byKey(a, b) == before(f(a), f(b))
    ensures Map(Insert(x, s, byKey), f) == Insert(f(x), Map(s, f), before)
  {
    if s != [] && byKey(s[0], x) {
      var rest := Insert(x, s[1..], byKey);
      InsertCommutesWithMap(x, s[1..], byKey, f, before);
      assert Map([s[0]] + rest, f) == [f(s[0])] + Map(rest, f);
    }
  }

  function Map<S, T>(s: seq<S>, f: S -> T): (r: seq<T>)
    ensures |r| == |s|
    ensures forall i :: 0 <= i < |s| ==> r[i] == f(s[i])
  {
    if s == [] then [] else [f(s[0])] + Map(s[1..], f)
  }

  /** bytes.Compare. */
  function Compare(a: Bytes, b: Bytes): (r: int)
    ensures r == 0 <==> a == b
    ensures -1 <= r <= 1
  {
    if a == [] then (if b == [] then 0 else -1)
    else if b == [] then 1
    else if a[0] < b[0] then -1
    else if a[0] > b[0] then 1
    else
      assert a == [a[0]] + a[1..] && b == [b[0]] + b[1..];
      Compare(a[1..], b[1..])
  }

  predicate Ascending(a: Bytes, b: Bytes) { Compare(a, b) == -1 }
  predicate Descending(a: Bytes, b: Bytes) { Compare(a, b) == 1 }

  /** The order read off the bytes: the first difference is a smaller byte, or an earlier end. */
  ghost predicate Below(a: Bytes, b: Bytes) {
    exists i :: BelowAt(a, b, i)
  }

  ghost predicate BelowAt(a: Bytes, b: Bytes, i: nat) {
    i <= |a| && i < |b| && a[..i] == b[..i] && (i == |a| || a[i] < b[i])
  }

  /** Ascending is that order and Descending its reverse. */
  lemma OrderOfBytes(a: Bytes, b: Bytes)
    ensures Ascending(a, b) <==> Below(a, b)
    ensures Descending(a, b) <==> Below(b, a)
  {
    CompareAntisymmetric(a, b);
    if Ascending(a, b) { var _ := FirstDifference(a, b); }
    if Ascending(b, a) { var _ := FirstDifference(b, a); }
    forall i | BelowAt(a, b, i) ensures Ascending(a, b) { DifferenceDecides(a, b, i); }
    forall i | BelowAt(b, a, i) ensures Ascending(b, a) { DifferenceDecides(b, a, i); }
  }

  lemma {:induction false} FirstDifference(a: Bytes, b: Bytes) returns (i: nat)
    requires Ascending(a, b)
    ensures BelowAt(a, b, i)
    decreases |a|
  {
    if a == [] || a[0] < b[0] {
      i := 0;
    } else {
      var j := FirstDifference(a[1..], b[1..]);
      i := j + 1;
      assert a[..i] == [a[0]] + a[1..][..j] && b[..i] == [b[0]] + b[1..][..j];
    }
  }

  lemma {:induction false} DifferenceDecides(a: Bytes, b: Bytes, i: nat)
    requires BelowAt(a, b, i)
    ensures Ascending(a, b)
    decreases i
  {
    if i > 0 {
      assert a[0] == a[..i][0] == b[..i][0] == b[0];
      assert a[1..][..i - 1] == a[..i][1..] && b[1..][..i - 1] == b[..i][1..];
      DifferenceDecides(a[1..], b[1..], i - 1);
    }
  }

  lemma {:induction false} CompareAntisymmetric(a: Bytes, b: Bytes)
    ensures Compare(b, a) == -Compare(a, b)
    decreases |a|
  {
    if a != [] && b != [] { CompareAntisymmetric(a[1..], b[1..]); }
  }

  lemma {:induction false} CompareTransitive(a: Bytes, b: Bytes, c: Bytes)
    requires Ascending(a, b) && Ascending(b, c)
    ensures Ascending(a, c)
    decreases |a|
  {
    if a != [] && b != [] && c != [] && a[0] == b[0] == c[0] {
      CompareTransitive(a[1..], b[1..], c[1..]);
    }
  }

  lemma CompareIsOrder()
    ensures StrictWeakOrder(Ascending) && StrictWeakOrder(Descending)
    ensures forall a, b :: Ascending(a, b) <==> Descending(b, a)
    ensures forall a, b :: a != b ==> Ascending(a, b) || Descending(a, b)
  {
    forall a, b ensures Compare(b, a) == -Compare(a, b) { CompareAntisymmetric(a, b); }
    forall a, b, c | Ascending(a, b) && Ascending(b, c) ensures Ascending(a, c) {
      CompareTransitive(a, b, c);
    }
    forall a, b, c | Descending(a, b) && Descending(b, c) ensures Descending(a, c) {
      CompareTransitive(c, b, a);
    }
  }

  /**
   * Sorting distinct byte strings downwards gives exactly the reversal of sorting them upwards,
   * which is what makes a signature list in SortBIP340PKs order line up with a script in SortKeys
   * order once the script interpreter pops the signatures from the far end.
   */
  lemma DescendingIsReversedAscending(s: seq<Bytes>)
    requires Distinct(s)
    ensures StableSort(s, Descending) == Reverse(StableSort(s, Ascending))
  {
    CompareIsOrder();
    var up, down := StableSort(s, Ascending), StableSort(s, Descending);
    StableSortSorted(s, Ascending);
    StableSortSorted(s, Descending);
    StableSortPermutes(s, Ascending);
    StableSortPermutes(s, Descending);
    MultisetDistinct(s, up);
    MultisetDistinct(s, down);
    ReverseMultiset(up);
    StrictlySortedUnique(Reverse(up), down, Descending);
  }

  lemma {:induction false} ReverseMultiset<T>(s: seq<T>)
    ensures multiset(Reverse(s)) == multiset(s)
  {
    if s != [] {
      ReverseMultiset(s[1..]);
      assert Reverse(s) == Reverse(s[1..]) + [s[0]];
      assert s == [s[0]] + s[1..];
    }
  }

  /** Two lists are jointly distinct when each is and they have nothing in common. */
  lemma DistinctAppend<T(!new)>(a: seq<T>, b: seq<T>)
    ensures Distinct(a + b) <==> Distinct(a) && Distinct(b) && forall x :: x in a ==> x !in b
  {
    var s := a + b;
    if Distinct(s) {
      forall i, j | 0 <= i < j < |b| ensures b[i] != b[j] { assert s[|a| + i] != s[|a| + j]; }
      forall i, j | 0 <= i < j < |a| ensures a[i] != a[j] { assert s[i] != s[j]; }
      forall x | x in a ensures x !in b {
        var i :| 0 <= i < |a| && a[i] == x;
        forall j | 0 <= j < |b| ensures b[j] != x { assert s[i] != s[|a| + j]; }
      }
    } else {
      var i, j :| 0 <= i < j < |s| && s[i] == s[j];
      if i < |a| <= j {
        assert a[i] in a && b[j - |a|] in b;
      }
    }
  }

  /** Sorted distinct strings go up, or down, at the first differing byte. */
  lemma SortedByBytes(s: seq<Bytes>, i: nat, j: nat)
    requires Distinct(s) && i < j < |s|
    ensures Below(StableSort(s, Ascending)[i], StableSort(s, Ascending)[j])
    ensures Below(StableSort(s, Descending)[j], StableSort(s, Descending)[i])
  {
    CompareIsOrder();
    StrictlyAfter(s, Ascending, i, j);
    StrictlyAfter(s, Descending, i, j);
    hide StableSort, Ascending, Descending, Below;
    OrderOfBytes(StableSort(s, Ascending)[i], StableSort(s, Ascending)[j]);
    OrderOfBytes(StableSort(s, Descending)[i], StableSort(s, Descending)[j]);
  }

  lemma StrictlyAfter(s: seq<Bytes>, before: Before<Bytes>, i: nat, j: nat)
    requires Distinct(s) && i < j < |s| && StrictWeakOrder(before) && forall a, b :: a != b ==> before(a, b) || before(b, a)
    ensures before(StableSort(s, before)[i], StableSort(s, before)[j])
  {
    StableSortSorted(s, before);
    StableSortPermutes(s, before);
    MultisetDistinct(s, StableSort(s, before));
  }
}
