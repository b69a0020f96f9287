/** The sort of an array by a comparator: stable, as ECMAScript requires it. The comparator is given by its negative side
    (`less`); the lemmas hold for every strict weak order. */
module Sorting {
  import opened Seqs

  ghost predicate StrictWeakOrder<T(!new)>(less: (T, T) -> bool) {
    && (forall x, y :: less(x, y) ==> !less(y, x))
    && (forall x, y, z {:trigger Compared(x, y, z)} :: Compared(x, y, z) && less(x, z) ==> less(x, y) || less(y, z))
  }

  /** Names three elements to compare, so that the verifier uses the order only where a proof asks for it. */
  ghost predicate Compared<T>(x: T, y: T, z: T) { true }

  ghost predicate Sorted<T>(less: (T, T) -> bool, s: seq<T>) {
    forall j, k :: 0 <= j < k < |s| ==> !less(s[k], s[j])
  }

  /** `x` before the first element that is not less than it, so before its equals. */
  function Insert<T>(less: (T, T) -> bool, x: T, s: seq<T>): seq<T> {
    if s == [] || !less(s[0], x) then [x] + s else [s[0]] + Insert(less, x, s[1..])
  }

  function StableSort<T>(less: (T, T) -> bool, s: seq<T>): seq<T> {
    if s == [] then [] else Insert(less, s[0], StableSort(less, s[1..]))
  }

  lemma {:induction false} InsertMultiset<T>(less: (T, T) -> bool, x: T, s: seq<T>)
    ensures multiset(Insert(less, x, s)) == multiset([x] + s)
  {
    if s != [] && less(s[0], x) {
      InsertMultiset(less, x, s[1..]);
      assert s == [s[0]] + s[1..];
    }
  }

  lemma {:induction false} SortMultiset<T>(less: (T, T) -> bool, s: seq<T>)
    ensures multiset(StableSort(less, s)) == multiset(s)
  {
    if s != [] {
      SortMultiset(less, s[1..]);
      InsertMultiset(less, s[0], StableSort(less, s[1..]));
      assert s == [s[0]] + s[1..];
    }
  }

  lemma {:induction false} InsertMembers<T(!new)>(less: (T, T) -> bool, x: T, s: seq<T>)
    ensures |Insert(less, x, s)| == |s| + 1
    ensures forall y :: y in Insert(less, x, s) <==> y == x || y in s
  {
    if s != [] && less(s[0], x) {
      InsertMembers(less, x, s[1..]);
      assert s == [s[0]] + s[1..];
    }
  }

  lemma {:induction false} SortMembers<T(!new)>(less: (T, T) -> bool, s: seq<T>)
    ensures |StableSort(less, s)| == |s|
    ensures forall x :: x in StableSort(less, s) <==> x in s
  {
    if s != [] {
      SortMembers(less, s[1..]);
      InsertMembers(less, s[0], StableSort(less, s[1..]));
      assert s == [s[0]] + s[1..];
    }
  }

  lemma {:induction false} InsertSorted<T(!new)>(less: (T, T) -> bool, x: T, s: seq<T>)
    requires StrictWeakOrder(less) && Sorted(less, s)
    ensures Sorted(less, Insert(less, x, s))
  {
    if s != [] {
      if less(s[0], x) {
        var rest := Insert(less, x, s[1..]);
        InsertSorted(less, x, s[1..]);
        InsertMembers(less, x, s[1..]);
        forall k | 0 <= k < |rest|
          ensures !less(rest[k], s[0])
        {
          assert rest[k] == x || rest[k] in s[1..];
        }
      } else {
        NothingBefore(less, x, s);
      }
    }
  }

  lemma NothingBefore<T(!new)>(less: (T, T) -> bool, x: T, s: seq<T>)
    requires StrictWeakOrder(less) && Sorted(less, s) && s != [] && !less(s[0], x)
    ensures forall y :: y in s ==> !less(y, x)
  {
    forall k | 0 <= k < |s|
      ensures !less(s[k], x)
    {
      assert k > 0 ==> !less(s[k], s[0]);
      assert Compared(s[k], s[0], x);
    }
  }

  lemma {:induction false} SortSorted<T(!new)>(less: (T, T) -> bool, s: seq<T>)
    requires StrictWeakOrder(less)
    ensures Sorted(less, StableSort(less, s))
  {
    hide StrictWeakOrder;
    if s != [] {
      SortSorted(less, s[1..]);
      InsertSorted(less, s[0], StableSort(less, s[1..]));
    }
  }

  lemma FilterCons<T(!new)>(p: T -> bool, x: T, s: seq<T>)
    ensures Filter(p, [x] + s) == if p(x) then [x] + Filter(p, s) else Filter(p, s)
  {
    FilterAppend(p, [x], s);
    assert [x][..0] == [];
    assert [] + Filter(p, s) == Filter(p, s);
  }

  lemma InsertFront<T>(less: (T, T) -> bool, x: T, s: seq<T>)
    requires forall y :: y in s ==> !less(y, x)
    ensures Insert(less, x, s) == [x] + s
  {
  }

  lemma InsertBehind<T>(less: (T, T) -> bool, x: T, head: T, rest: seq<T>)
    requires less(head, x)
    ensures Insert(less, x, [head] + rest) == [head] + Insert(less, x, rest)
  {
    assert ([head] + rest)[1..] == rest;
  }

  lemma {:induction false} FilterInsert<T(!new)>(less: (T, T) -> bool, p: T -> bool, x: T, s: seq<T>)
    requires StrictWeakOrder(less) && Sorted(less, s)
    ensures Filter(p, Insert(less, x, s)) == if p(x) then Insert(less, x, Filter(p, s)) else Filter(p, s)
    decreases |s|, 1
  {
    if s == [] || !less(s[0], x) {
      FilterCons(p, x, s);
      if s != [] {
        NothingBefore(less, x, s);
      }
      InsertFront(less, x, Filter(p, s));
    } else {
      FilterInsertBehind(less, p, x, s[0], s[1..]);
      assert s == [s[0]] + s[1..];
    }
  }

  lemma {:induction false} FilterInsertBehind<T(!new)>(less: (T, T) -> bool, p: T -> bool, x: T, head: T, rest: seq<T>)
    requires StrictWeakOrder(less) && Sorted(less, rest) && less(head, x)
    ensures var all := [head] + rest;
            Filter(p, Insert(less, x, all)) == if p(x) then Insert(less, x, Filter(p, all)) else Filter(p, all)
    decreases |rest| + 1, 0
  {
    InsertBehind(less, x, head, rest);
    FilterInsert(less, p, x, rest);
    FilterCons(p, head, Insert(less, x, rest));
    FilterCons(p, head, rest);
    if p(head) {
      InsertBehind(less, x, head, Filter(p, rest));
    }
  }

  /** A selection of a sorted array is the sorted selection: stability in its useful form. */
  lemma {:induction false} FilterSort<T(!new)>(less: (T, T) -> bool, p: T -> bool, s: seq<T>)
    requires StrictWeakOrder(less)
    ensures Filter(p, StableSort(less, s)) == StableSort(less, Filter(p, s))
  {
    if s != [] {
      var head, rest := s[0], s[1..];
      FilterSort(less, p, rest);
      SortSorted(less, rest);
      FilterInsert(less, p, head, StableSort(less, rest));
      assert s == [head] + rest;
      FilterCons(p, head, rest);
      if p(head) {
        SortCons(less, head, Filter(p, rest));
      }
    }
  }

  /** Elements that compare as equal keep their order; with FilterSort: those of every sorted array. */
  lemma {:induction false} SortKeepsEquals<T(!new)>(less: (T, T) -> bool, s: seq<T>)
    requires forall x, y :: x in s && y in s ==> !less(x, y)
    ensures StableSort(less, s) == s
  {
    if s != [] {
      SortKeepsEquals(less, s[1..]);
      InsertFront(less, s[0], s[1..]);
    }
  }

  lemma SortCons<T>(less: (T, T) -> bool, head: T, rest: seq<T>)
    ensures StableSort(less, [head] + rest) == Insert(less, head, StableSort(less, rest))
  {
    assert ([head] + rest)[1..] == rest;
  }
}
