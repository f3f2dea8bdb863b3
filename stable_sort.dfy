/** Kotlin's `sortedBy` and `sortBy` are stable sorts. This module defines a
    stable insertion sort over a total preorder and proves that its result is
    ordered, a permutation of its input, keeps equivalent elements in their
    input order, and is the only sequence with those properties. */
module StableSort {

  ghost predicate Total<T(!new)>(le: (T, T) -> bool)
  {
    forall x, y :: le(x, y) || le(y, x)
  }

  ghost predicate Transitive<T(!new)>(le: (T, T) -> bool)
  {
    forall x, y, z :: le(x, y) && le(y, z) ==> le(x, z)
  }

  /** The order a sort key induces: total and transitive, ties allowed. */
  ghost predicate TotalPreorder<T(!new)>(le: (T, T) -> bool)
  {
    Total(le) && Transitive(le)
  }

  predicate Equivalent<T>(le: (T, T) -> bool, x: T, y: T)
  {
    le(x, y) && le(y, x)
  }

  predicate SortedBy<T>(s: seq<T>, le: (T, T) -> bool)
  {
    forall i, j :: 0 <= i < j < |s| ==> le(s[i], s[j])
  }

  /** The elements of `s` that tie with `x`, in their order in `s`. */
  function Equivalents<T>(s: seq<T>, le: (T, T) -> bool, x: T): seq<T>
  {
    if s == [] then []
    else (if Equivalent(le, x, s[0]) then [s[0]] else []) + Equivalents(s[1..], le, x)
  }

  /** `r` keeps every class of tied elements of `s`, in the same order. */
  ghost predicate StableFor<T(!new)>(r: seq<T>, s: seq<T>, le: (T, T) -> bool)
  {
    forall x :: Equivalents(r, le, x) == Equivalents(s, le, x)
  }

  /** Puts `x` in front of the first element that is not below it. */
  function Insert<T>(x: T, s: seq<T>, le: (T, T) -> bool): (r: seq<T>)
    ensures multiset(r) == multiset(s) + multiset{x}
  {
    if s == [] || le(x, s[0]) then [x] + s
    else
      assert s == [s[0]] + s[1..];
      [s[0]] + Insert(x, s[1..], le)
  }

  /** Stable insertion sort. */
  function SortBy<T>(s: seq<T>, le: (T, T) -> bool): (r: seq<T>)
    ensures multiset(r) == multiset(s)
    ensures |r| == |s|
  {
    if s == [] then []
    else
      assert s == [s[0]] + s[1..];
      Insert(s[0], SortBy(s[1..], le), le)
  }

  lemma {:induction false} InsertLowerBound<T>(x: T, s: seq<T>, le: (T, T) -> bool, lo: T)
    requires le(lo, x)
    requires forall k :: 0 <= k < |s| ==> le(lo, s[k])
    ensures forall k :: 0 <= k < |Insert(x, s, le)| ==> le(lo, Insert(x, s, le)[k])
  {
    if s != [] && !le(x, s[0]) {
      InsertLowerBound(x, s[1..], le, lo);
    }
  }

  lemma {:induction false} InsertSorted<T(!new)>(x: T, s: seq<T>, le: (T, T) -> bool)
    requires TotalPreorder(le) && SortedBy(s, le)
    ensures SortedBy(Insert(x, s, le), le)
  {
    if s != [] && !le(x, s[0]) {
      InsertSorted(x, s[1..], le);
      InsertLowerBound(x, s[1..], le, s[0]);
    }
  }

  lemma EquivalentsCons<T>(a: T, t: seq<T>, le: (T, T) -> bool, y: T)
    ensures Equivalents([a] + t, le, y) == (if Equivalent(le, y, a) then [a] else []) + Equivalents(t, le, y)
  {
    assert ([a] + t)[1..] == t;
  }

  lemma Swap<T>(head: seq<T>, mine: seq<T>, rest: seq<T>)
    requires head == [] || mine == []
    ensures head + (mine + rest) == mine + (head + rest)
  {
  }

  lemma {:induction false} InsertEquivalents<T>(x: T, s: seq<T>, le: (T, T) -> bool, y: T)
    requires forall e :: le(x, y) && le(y, e) ==> le(x, e)
    ensures Equivalents(Insert(x, s, le), le, y)
         == (if Equivalent(le, y, x) then [x] else []) + Equivalents(s, le, y)
  {
    if s == [] || le(x, s[0]) {
      EquivalentsCons(x, s, le, y);
    } else {
      var t := Insert(x, s[1..], le);
      InsertEquivalents(x, s[1..], le, y);
      EquivalentsCons(s[0], t, le, y);
      if Equivalent(le, y, x) {
        // otherwise le(x, s[0]) by transitivity
        assert !le(y, s[0]);
      }
      Swap(if Equivalent(le, y, s[0]) then [s[0]] else [],
           if Equivalent(le, y, x) then [x] else [],
           Equivalents(s[1..], le, y));
    }
  }

  /** The sort orders its input and keeps ties in input order. */
  lemma {:induction false} SortByOrderedAndStable<T(!new)>(s: seq<T>, le: (T, T) -> bool)
    requires TotalPreorder(le)
    ensures SortedBy(SortBy(s, le), le)
    ensures StableFor(SortBy(s, le), s, le)
  {
    if s != [] {
      var rest := SortBy(s[1..], le);
      SortByOrderedAndStable(s[1..], le);
      InsertSorted(s[0], rest, le);
      forall y ensures Equivalents(SortBy(s, le), le, y) == Equivalents(s, le, y) {
        InsertEquivalents(s[0], rest, le, y);
      }
    }
  }

  /** Sorting an already ordered sequence changes nothing. */
  lemma {:induction false} SortBySortedIsIdentity<T>(s: seq<T>, le: (T, T) -> bool)
    requires SortedBy(s, le)
    ensures SortBy(s, le) == s
  {
    if s != [] {
      SortBySortedIsIdentity(s[1..], le);
      assert s == [s[0]] + s[1..];
    }
  }

  lemma {:induction false} EquivalentsWitness<T>(s: seq<T>, le: (T, T) -> bool, x: T)
    requires Equivalents(s, le, x) != []
    ensures exists k :: 0 <= k < |s| && Equivalent(le, x, s[k])
  {
    if !Equivalent(le, x, s[0]) {
      EquivalentsWitness(s[1..], le, x);
      var k :| 0 <= k < |s[1..]| && Equivalent(le, x, s[1..][k]);
      assert Equivalent(le, x, s[k + 1]);
    }
  }

  lemma SortedHeadIsLeast<T(!new)>(s: seq<T>, le: (T, T) -> bool, k: int)
    requires TotalPreorder(le) && SortedBy(s, le) && 0 <= k < |s|
    ensures le(s[0], s[k])
  {
    if k == 0 {
      assert le(s[0], s[0]);
    }
  }

  lemma HasOwnClass<T(!new)>(s: seq<T>, le: (T, T) -> bool)
    requires TotalPreorder(le) && s != []
    ensures Equivalents(s, le, s[0]) != []
  {
    assert le(s[0], s[0]);
  }

  /** Two ordered sequences that agree on every class of tied elements are
      equal: a stable sort's result is unique, so `SortBy` gives exactly what
      any other stable sort of the same input gives. */
  lemma {:induction false} StableSortIsUnique<T(!new)>(a: seq<T>, b: seq<T>, le: (T, T) -> bool)
    requires TotalPreorder(le)
    requires SortedBy(a, le) && SortedBy(b, le) && StableFor(a, b, le)
    ensures a == b
    decreases |a| + |b|
  {
    if a == [] && b == [] {
    } else if a == [] {
      HasOwnClass(b, le);
      assert false;
    } else if b == [] {
      HasOwnClass(a, le);
      assert false;
    } else {
      var a0, b0 := a[0], b[0];
      // b holds an element tied with a0, and b0 is below it; and vice versa.
      assert Equivalent(le, a0, a0) && Equivalent(le, b0, b0);
      assert Equivalents(b, le, a0) == Equivalents(a, le, a0) != [];
      EquivalentsWitness(b, le, a0);
      var kb :| 0 <= kb < |b| && Equivalent(le, a0, b[kb]);
      SortedHeadIsLeast(b, le, kb);
      assert Equivalents(a, le, b0) == Equivalents(b, le, b0) != [];
      EquivalentsWitness(a, le, b0);
      var ka :| 0 <= ka < |a| && Equivalent(le, b0, a[ka]);
      SortedHeadIsLeast(a, le, ka);
      assert Equivalent(le, a0, b0);
      // The class of a0 starts with a0 in a and with b0 in b.
      assert Equivalents(a, le, a0)[0] == a0;
      assert Equivalents(b, le, a0)[0] == b0;
      assert a0 == b0;
      forall y ensures Equivalents(a[1..], le, y) == Equivalents(b[1..], le, y) {
        var head := if Equivalent(le, y, a0) then [a0] else [];
        var ta, tb := Equivalents(a[1..], le, y), Equivalents(b[1..], le, y);
        assert head + ta == Equivalents(a, le, y) == Equivalents(b, le, y) == head + tb;
        assert ta == (head + ta)[|head|..];
        assert tb == (head + tb)[|head|..];
      }
      StableSortIsUnique(a[1..], b[1..], le);
      assert a == [a0] + a[1..];
      assert b == [b0] + b[1..];
    }
  }
}
