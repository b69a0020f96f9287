/** Sequences as the source uses arrays: `filter`, `map`, and the order of the first occurrences (a `Map` in the order of
    its insertions). */
module Seqs {
  datatype Option<+T> = None | Some(value: T)

  function Filter<T(!new)>(p: T -> bool, s: seq<T>): (r: seq<T>)
    ensures forall x :: x in r <==> x in s && p(x)
  {
    if s == [] then [] else
    var rest := Filter(p, s[..|s| - 1]);
    var last := s[|s| - 1];
    if p(last) then rest + [last] else rest
  }

  function Map<A, B>(f: A -> B, s: seq<A>): (r: seq<B>)
    ensures |r| == |s|
    ensures forall k :: 0 <= k < |s| ==> r[k] == f(s[k])
  {
    seq(|s|, k requires 0 <= k < |s| => f(s[k]))
  }

  function Distinct<T(==,!new)>(s: seq<T>): (r: seq<T>)
    ensures forall x :: x in r <==> x in s
    ensures NoDuplicates(r)
  {
    if s == [] then [] else
    var rest := Distinct(s[..|s| - 1]);
    var last := s[|s| - 1];
    if last in rest then rest else rest + [last]
  }

  /** `m.get(k) ?? []`: the list that a map of lists holds for a key. */
  function Group<K, V>(m: map<K, seq<V>>, k: K): seq<V> { if k in m then m[k] else [] }

  /** `m.set(k, [...(m.get(k) ?? []), x])`. */
  function AddTo<K(!new), V>(m: map<K, seq<V>>, k: K, x: V): (r: map<K, seq<V>>)
    ensures forall j :: Group(r, j) == if j == k then Group(m, k) + [x] else Group(m, j)
    ensures r.Keys == m.Keys + {k}
  {
    m[k := Group(m, k) + [x]]
  }

  ghost predicate NoDuplicates<T>(s: seq<T>) {
    forall j, k :: 0 <= j < k < |s| ==> s[j] != s[k]
  }

  lemma FilterSnoc<T(!new)>(p: T -> bool, s: seq<T>, x: T)
    ensures Filter(p, s + [x]) == if p(x) then Filter(p, s) + [x] else Filter(p, s)
  {
    assert (s + [x])[..|s|] == s;
  }

  lemma {:induction false} FilterAppend<T(!new)>(p: T -> bool, s: seq<T>, t: seq<T>)
    ensures Filter(p, s + t) == Filter(p, s) + Filter(p, t)
  {
    if t == [] {
      assert s + t == s;
    } else {
      var init, last := t[..|t| - 1], t[|t| - 1];
      FilterAppend(p, s, init);
      assert s + t == (s + init) + [last];
      FilterSnoc(p, s + init, last);
      assert Filter(p, t) == if p(last) then Filter(p, init) + [last] else Filter(p, init);
      hide Filter;
      Associates(Filter(p, s), Filter(p, init), [last]);
    }
  }

  lemma Associates<T>(a: seq<T>, b: seq<T>, c: seq<T>)
    ensures a + (b + c) == a + b + c
  {
  }

  /** What a filter says of a sequence with `x` in the middle, and of the sequence without it. */
  lemma FilterMiddle<T(!new)>(p: T -> bool, before: seq<T>, x: T, after: seq<T>)
    ensures Filter(p, before + [x] + after) == (if p(x) then Filter(p, before) + [x] else Filter(p, before)) + Filter(p, after)
    ensures Filter(p, before + after) == Filter(p, before) + Filter(p, after)
  {
    FilterAppend(p, before + [x], after);
    FilterSnoc(p, before, x);
    FilterAppend(p, before, after);
  }

  lemma {:induction false} FilterTwice<T(!new)>(p: T -> bool, q: T -> bool, s: seq<T>)
    ensures Filter(p, Filter(q, s)) == Filter(q, Filter(p, s))
  {
    if s != [] {
      var init, last := s[..|s| - 1], s[|s| - 1];
      FilterTwice(p, q, init);
      FilterSnoc(p, Filter(q, init), last);
      FilterSnoc(q, Filter(p, init), last);
    }
  }

  /** Two conditions that agree on the elements select the same ones. */
  lemma {:induction false} FilterAgrees<T(!new)>(p: T -> bool, q: T -> bool, s: seq<T>)
    requires forall x :: x in s ==> p(x) == q(x)
    ensures Filter(p, s) == Filter(q, s)
  {
    if s != [] {
      FilterAgrees(p, q, s[..|s| - 1]);
    }
  }

  /** On elements that satisfy `q`, a second filter by `q` changes nothing, so two filters that agree under `q` agree. */
  lemma {:induction false} FilterUnder<T(!new)>(p: T -> bool, q: T -> bool, within: T -> bool, s: seq<T>)
    requires forall x :: x in s && within(x) ==> p(x) == q(x)
    ensures Filter(p, Filter(within, s)) == Filter(within, Filter(q, s))
  {
    FilterTwice(within, q, s);
    FilterAgrees(p, q, Filter(within, s));
  }

  lemma {:induction false} FilterAll<T(!new)>(p: T -> bool, s: seq<T>)
    requires forall x :: x in s ==> p(x)
    ensures Filter(p, s) == s
  {
    if s != [] {
      FilterAll(p, s[..|s| - 1]);
    }
  }

  lemma {:induction false} FilterNone<T(!new)>(p: T -> bool, s: seq<T>)
    requires forall x :: x in s ==> !p(x)
    ensures Filter(p, s) == []
  {
    if s != [] {
      FilterNone(p, s[..|s| - 1]);
    }
  }

  lemma MapSnoc<A, B>(f: A -> B, s: seq<A>, x: A)
    ensures Map(f, s + [x]) == Map(f, s) + [f(x)]
  {
  }

  /** A filter before a map is a filter after it, when the two conditions say the same. */
  lemma {:induction false} MapFilter<A(!new), B(!new)>(f: A -> B, p: A -> bool, q: B -> bool, s: seq<A>)
    requires forall x :: x in s ==> p(x) == q(f(x))
    ensures Map(f, Filter(p, s)) == Filter(q, Map(f, s))
  {
    if s != [] {
      var init, last := s[..|s| - 1], s[|s| - 1];
      MapFilter(f, p, q, init);
      MapSnoc(f, init, last);
      assert s == init + [last];
      FilterSnoc(q, Map(f, init), f(last));
      MapSnoc(f, Filter(p, init), last);
    }
  }

  lemma {:induction false} FilterNoDuplicates<T(!new)>(p: T -> bool, s: seq<T>)
    requires NoDuplicates(s)
    ensures NoDuplicates(Filter(p, s))
  {
    if s != [] {
      var init, last := s[..|s| - 1], s[|s| - 1];
      assert last !in init;
      FilterNoDuplicates(p, init);
    }
  }

  lemma DistinctSnoc<T(!new)>(s: seq<T>, x: T)
    ensures Distinct(s + [x]) == if x in s then Distinct(s) else Distinct(s) + [x]
  {
    assert (s + [x])[..|s|] == s;
  }

  lemma NoDuplicatesByMultiset<T(!new)>(s: seq<T>, t: seq<T>)
    requires NoDuplicates(s) && multiset(s) == multiset(t)
    ensures NoDuplicates(t)
  {
    forall j, k | 0 <= j < k < |t|
      ensures t[j] != t[k]
    {
      if t[j] == t[k] {
        assert t == t[..j] + [t[j]] + t[j + 1..k] + [t[k]] + t[k + 1..];
        assert multiset(t)[t[j]] >= 2;
        CountOnce(s, t[j]);
      }
    }
  }

  lemma {:induction false} CountOnce<T(!new)>(s: seq<T>, x: T)
    requires NoDuplicates(s)
    ensures multiset(s)[x] <= 1
  {
    if s != [] {
      var init, last := s[..|s| - 1], s[|s| - 1];
      CountOnce(init, x);
      assert s == init + [last];
      assert last !in init;
    }
  }

  /** The elements of the parts, one part behind the other. */
  function Flatten<T>(parts: seq<seq<T>>): seq<T> {
    if parts == [] then [] else Flatten(parts[..|parts| - 1]) + parts[|parts| - 1]
  }
}
