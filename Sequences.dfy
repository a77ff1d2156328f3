/** Sequence helpers used by the build orchestrator: order-preserving filters
    (Python list comprehensions with an `if`) and an order-preserving
    de-duplication (the behaviour the orchestrator relies on from
    `PathHelper.uniqify`, whose own code is not part of this model). */
module Sequences {

  /** No element occurs twice. */
  predicate NoDups<T(==)>(s: seq<T>) {
    forall i, j :: 0 <= i < j < |s| ==> s[i] != s[j]
  }

  /** `[x for x in s if keep(x)]`: keeps, in order, the elements `keep` accepts. */
  function Filter<T(!new)>(s: seq<T>, keep: T -> bool): (r: seq<T>)
    ensures |r| <= |s|
    ensures forall x :: x in r <==> x in s && keep(x)
  {
    if s == [] then []
    else
      var rest := Filter(s[..|s| - 1], keep);
      assert s == s[..|s| - 1] + [s[|s| - 1]];
      if keep(s[|s| - 1]) then rest + [s[|s| - 1]] else rest
  }

  /** The elements `accept` turns down, in order: the complement of `Filter`. */
  function Rejected<T(!new)>(s: seq<T>, accept: T -> bool): (r: seq<T>)
    ensures forall x :: x in r <==> x in s && !accept(x)
  {
    if s == [] then []
    else
      var rest := Rejected(s[..|s| - 1], accept);
      assert s == s[..|s| - 1] + [s[|s| - 1]];
      if accept(s[|s| - 1]) then rest else rest + [s[|s| - 1]]
  }

  /** One more element at the end: the step a loop over `s` takes. */
  lemma FilterAppend<T(!new)>(s: seq<T>, x: T, keep: T -> bool)
    ensures Filter(s + [x], keep) == Filter(s, keep) + (if keep(x) then [x] else [])
    ensures Rejected(s + [x], keep) == Rejected(s, keep) + (if keep(x) then [] else [x])
  {
    assert (s + [x])[..|s + [x]| - 1] == s;
  }

  /** `[x for x in s if x not in drop]`. */
  function FilterNotIn<T(==)>(s: seq<T>, drop: seq<T>): (r: seq<T>)
    ensures |r| <= |s|
  {
    if s == [] then []
    else
      var rest := FilterNotIn(s[..|s| - 1], drop);
      assert s == s[..|s| - 1] + [s[|s| - 1]];
      if s[|s| - 1] !in drop then rest + [s[|s| - 1]] else rest
  }

  /** `FilterNotIn` keeps exactly the elements of `s` that are not dropped. */
  lemma {:induction false} FilterNotInMembers<T>(s: seq<T>, drop: seq<T>, x: T)
    ensures x in FilterNotIn(s, drop) <==> x in s && x !in drop
  {
    if s != [] {
      assert s == s[..|s| - 1] + [s[|s| - 1]];
      FilterNotInMembers(s[..|s| - 1], drop, x);
    }
  }

  /** Removing every element of a sequence from itself leaves nothing. */
  lemma {:induction false} FilterNotInSelf<T>(s: seq<T>, drop: seq<T>)
    requires forall x :: x in s ==> x in drop
    ensures FilterNotIn(s, drop) == []
  {
    if s != [] {
      assert s[..|s| - 1] + [s[|s| - 1]] == s;
      assert forall x :: x in s[..|s| - 1] ==> x in s;
      FilterNotInSelf(s[..|s| - 1], drop);
    }
  }

  /** For a sequence without duplicates, dropping its last `k` elements by
      membership is the same as cutting them off. */
  lemma {:induction false} FilterNotInSuffix<T>(s: seq<T>, k: nat)
    requires NoDups(s)
    requires k <= |s|
    ensures FilterNotIn(s, s[|s| - k..]) == s[..|s| - k]
  {
    if k == 0 {
      FilterNotInNothing(s, []);
      assert s[|s| - k..] == [] && s[..|s| - k] == s;
    } else {
      // the last element is retained; the rest is the same question on
      // the prefix with one fewer retained
      var init := s[..|s| - 1];
      var last := s[|s| - 1];
      var kept := init[|init| - (k - 1)..];
      var tail := s[|s| - k..];
      assert tail == kept + [last];
      assert last in tail by { assert tail[k - 1] == last; }
      assert NoDups(init);
      assert last !in init;
      FilterNotInSuffix(init, k - 1);
      FilterNotInIgnoresOther(init, kept, last);
      assert FilterNotIn(init, tail) == init[..|init| - (k - 1)];
      assert s[..|s| - 1] == init;
      assert FilterNotIn(s, tail) == FilterNotIn(init, tail);
      assert s[..|s| - k] == init[..|init| - (k - 1)];
    }
  }

  /** Dropping nothing keeps everything. */
  lemma {:induction false} FilterNotInNothing<T>(s: seq<T>, drop: seq<T>)
    requires forall x :: x in s ==> x !in drop
    ensures FilterNotIn(s, drop) == s
  {
    if s != [] {
      assert s[..|s| - 1] + [s[|s| - 1]] == s;
      assert forall x :: x in s[..|s| - 1] ==> x in s;
      FilterNotInNothing(s[..|s| - 1], drop);
    }
  }

  /** Adding to the drop list a value that does not occur changes nothing. */
  lemma {:induction false} FilterNotInIgnoresOther<T>(s: seq<T>, drop: seq<T>, y: T)
    requires y !in s
    ensures FilterNotIn(s, drop + [y]) == FilterNotIn(s, drop)
  {
    if s != [] {
      assert s[..|s| - 1] + [s[|s| - 1]] == s;
      assert y !in s[..|s| - 1];
      FilterNotInIgnoresOther(s[..|s| - 1], drop, y);
    }
  }

  /** `PathHelper.uniqify`: keeps the first occurrence of each element, in order. */
  function Uniqify<T(==)>(s: seq<T>): (r: seq<T>)
    ensures |r| <= |s|
  {
    if s == [] then []
    else
      var rest := Uniqify(s[..|s| - 1]);
      if s[|s| - 1] in rest then rest else rest + [s[|s| - 1]]
  }

  /** Uniqify keeps exactly the elements of its input, each once. */
  lemma {:induction false} UniqifySpec<T>(s: seq<T>)
    ensures forall x :: x in Uniqify(s) <==> x in s
    ensures NoDups(Uniqify(s))
    ensures |Uniqify(s)| <= |s|
  {
    if s != [] {
      assert s == s[..|s| - 1] + [s[|s| - 1]];
      UniqifySpec(s[..|s| - 1]);
    }
  }

  /** A list without duplicates is left unchanged. */
  lemma {:induction false} UniqifyNoDupsIdentity<T>(s: seq<T>)
    requires NoDups(s)
    ensures Uniqify(s) == s
  {
    if s != [] {
      var init := s[..|s| - 1];
      assert NoDups(init);
      UniqifyNoDupsIdentity(init);
      assert s[|s| - 1] !in init;
      assert init + [s[|s| - 1]] == s;
    }
  }

  /** Appending an element already present leaves the de-duplicated list as
      it was; appending a new one adds it at the end. */
  lemma {:induction false} UniqifyAppend<T>(s: seq<T>, x: T)
    ensures Uniqify(s + [x]) == if x in s then Uniqify(s) else Uniqify(s) + [x]
  {
    assert (s + [x])[..|s + [x]| - 1] == s;
    UniqifySpec(s);
  }

  /** Filtering keeps a list free of duplicates. */
  lemma {:induction false} FilterNoDups<T(!new)>(s: seq<T>, keep: T -> bool)
    requires NoDups(s)
    ensures NoDups(Filter(s, keep))
  {
    if s != [] {
      var init := s[..|s| - 1];
      assert NoDups(init);
      FilterNoDups(init, keep);
      assert s[|s| - 1] !in init;
    }
  }
}
