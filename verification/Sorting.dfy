/** The stable sort that the models use for Python's `list.sort`, and filtering. */
module Sorting {
  import opened Text


  ghost predicate TotalPreorder<T(!new)>(le: (T, T) -> bool) {
    && (forall a, b :: le(a, b) || le(b, a))
    && (forall a, b, c :: le(a, b) && le(b, c) ==> le(a, c))
  }

  predicate SortedBy<T>(s: seq<T>, le: (T, T) -> bool) {
    forall i, j | 0 <= i < j < |s| :: le(s[i], s[j])
  }

  function Filter<T>(s: seq<T>, keep: T -> bool): seq<T> {
    if s == [] then [] else (if keep(s[0]) then [s[0]] else []) + Filter(s[1..], keep)
  }

  /** Puts `x` in front of the first element that it may precede. */
  function Insert<T>(x: T, s: seq<T>, le: (T, T) -> bool): seq<T> {
    if s == [] || le(x, s[0]) then [x] + s else [s[0]] + Insert(x, s[1..], le)
  }

  function StableSort<T>(s: seq<T>, le: (T, T) -> bool): seq<T> {
    if s == [] then [] else Insert(s[0], StableSort(s[1..], le), le)
  }

  /** Merges two sorted sequences, the left one first among equals. */
  function Merge<T>(a: seq<T>, b: seq<T>, le: (T, T) -> bool): seq<T>
    decreases |a| + |b|
  {
    if a == [] then b
    else if b == [] then a
    else if le(a[0], b[0]) then [a[0]] + Merge(a[1..], b, le)
    else [b[0]] + Merge(a, b[1..], le)
  }

  // ----- Filter -----

  lemma {:induction false} FilterMembers<T>(s: seq<T>, keep: T -> bool, x: T)
    ensures x in Filter(s, keep) <==> x in s && keep(x)
  {
    if s != [] {
      FilterMembers(s[1..], keep, x);
    }
  }

  lemma {:induction false} FilterConcat<T>(a: seq<T>, b: seq<T>, keep: T -> bool)
    ensures Filter(a + b, keep) == Filter(a, keep) + Filter(b, keep)
  {
    if a == [] {
      assert a + b == b;
    } else {
      assert (a + b)[1..] == a[1..] + b;
      FilterConcat(a[1..], b, keep);
      Assoc(if keep(a[0]) then [a[0]] else [], Filter(a[1..], keep), Filter(b, keep));
    }
  }

  // ----- The sort is a sorted, stable permutation -----

  lemma {:induction false} InsertKeepsContents<T>(x: T, s: seq<T>, le: (T, T) -> bool)
    ensures multiset(Insert(x, s, le)) == multiset{x} + multiset(s)
    ensures |Insert(x, s, le)| == |s| + 1
  {
    if !(s == [] || le(x, s[0])) {
      InsertKeepsContents(x, s[1..], le);
      assert s == [s[0]] + s[1..];
    }
  }

  lemma {:induction false} InsertKeepsOrder<T(!new)>(x: T, s: seq<T>, le: (T, T) -> bool)
    requires TotalPreorder(le) && SortedBy(s, le)
    ensures SortedBy(Insert(x, s, le), le)
  {
    if !(s == [] || le(x, s[0])) {
      InsertKeepsOrder(x, s[1..], le);
      InsertKeepsContents(x, s[1..], le);
      var rest := Insert(x, s[1..], le);
      forall i | 0 <= i < |rest| ensures le(s[0], rest[i]) {
        assert rest[i] in multiset(rest);
        assert rest[i] == x || rest[i] in s[1..];
      }
    }
  }

  lemma {:induction false} SortIsSortedPermutation<T(!new)>(s: seq<T>, le: (T, T) -> bool)
    requires TotalPreorder(le)
    ensures SortedBy(StableSort(s, le), le)
    ensures multiset(StableSort(s, le)) == multiset(s) && |StableSort(s, le)| == |s|
  {
    if s != [] {
      SortIsSortedPermutation(s[1..], le);
      InsertKeepsOrder(s[0], StableSort(s[1..], le), le);
      InsertKeepsContents(s[0], StableSort(s[1..], le), le);
      assert s == [s[0]] + s[1..];
    }
  }

  lemma {:induction false} InsertIsStable<T(!new)>(x: T, s: seq<T>, le: (T, T) -> bool, keep: T -> bool)
    requires TotalPreorder(le)
    requires forall a, b | keep(a) && keep(b) :: le(a, b)
    ensures Filter(Insert(x, s, le), keep) == Filter([x] + s, keep)
  {
    if s == [] || le(x, s[0]) {
    } else {
      InsertIsStable(x, s[1..], le, keep);
      assert ([x] + s)[1..] == s && ([x] + s[1..])[1..] == s[1..];
    }
  }

  /** Elements that tie keep their order. */
  lemma {:induction false} SortIsStable<T(!new)>(s: seq<T>, le: (T, T) -> bool, keep: T -> bool)
    requires TotalPreorder(le)
    requires forall a, b | keep(a) && keep(b) :: le(a, b)
    ensures Filter(StableSort(s, le), keep) == Filter(s, keep)
  {
    if s != [] {
      SortIsStable(s[1..], le, keep);
      InsertIsStable(s[0], StableSort(s[1..], le), le, keep);
      assert ([s[0]] + StableSort(s[1..], le))[1..] == StableSort(s[1..], le);
    }
  }

  lemma {:induction false} SortOfSorted<T(!new)>(s: seq<T>, le: (T, T) -> bool)
    requires SortedBy(s, le)
    ensures StableSort(s, le) == s
  {
    if s != [] {
      SortOfSorted(s[1..], le);
    }
  }

  // ----- Sorting a concatenation is merging -----

  lemma {:induction false} InsertIntoMerge<T(!new)>(x: T, a: seq<T>, b: seq<T>, le: (T, T) -> bool)
    requires TotalPreorder(le)
    ensures Insert(x, Merge(a, b, le), le) == Merge(Insert(x, a, le), b, le)
    decreases |a| + |b|
  {
    if b == [] {
    } else if a == [] {
      if le(x, b[0]) {
        assert [x][1..] == [];
      } else {
        InsertIntoMerge(x, a, b[1..], le);
        assert Merge([x], b, le) == [b[0]] + Merge([x], b[1..], le);
      }
    } else if le(x, a[0]) {
      assert ([x] + a)[1..] == a;
      if !le(x, b[0]) {
        assert !le(a[0], b[0]);
        InsertIntoMerge(x, a, b[1..], le);
      }
    } else if le(a[0], b[0]) {
      InsertIntoMerge(x, a[1..], b, le);
      assert (Insert(x, a, le))[1..] == Insert(x, a[1..], le);
    } else {
      assert !le(x, b[0]);
      InsertIntoMerge(x, a, b[1..], le);
    }
  }

  /** Stable-sorting a concatenation merges the sorted parts, whatever ties there are. */
  lemma {:induction false} SortOfConcat<T(!new)>(a: seq<T>, b: seq<T>, le: (T, T) -> bool)
    requires TotalPreorder(le)
    ensures StableSort(a + b, le) == Merge(StableSort(a, le), StableSort(b, le), le)
  {
    if a == [] {
      assert a + b == b;
    } else {
      assert (a + b)[1..] == a[1..] + b;
      SortOfConcat(a[1..], b, le);
      InsertIntoMerge(a[0], StableSort(a[1..], le), StableSort(b, le), le);
    }
  }
}
