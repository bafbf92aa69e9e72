/** The stable sort of the standard library, its defining laws, and what it does to reversed lists. */
module StableSorting {

  ghost predicate TotalPreorder<T(!new)>(leq: (T, T) -> bool) {
    && (forall a, b :: leq(a, b) || leq(b, a))
    && (forall a, b, c :: leq(a, b) && leq(b, c) ==> leq(a, c))
  }

  /** Every earlier element is related to every later one. */
  ghost predicate Pairwise<T>(rel: (T, T) -> bool, s: seq<T>) {
    forall i, j | 0 <= i < j < |s| :: rel(s[i], s[j])
  }

  function Reverse<T>(s: seq<T>): (r: seq<T>)
    ensures |r| == |s|
    ensures forall i | 0 <= i < |s| :: r[i] == s[|s| - 1 - i]
  {
    if s == [] then [] else Reverse(s[1..]) + [s[0]]
  }

  lemma {:induction false} LastSplits<T>(s: seq<T>)
    requires s != []
    ensures s == s[..|s| - 1] + [s[|s| - 1]]
  {
  }

  lemma {:induction false} Associates<T>(a: seq<T>, b: seq<T>, c: seq<T>)
    ensures a + (b + c) == (a + b) + c
  {
  }

  function Filter<T>(keep: T -> bool, s: seq<T>): (r: seq<T>)
    ensures forall x | x in r :: x in s && keep(x)
    ensures forall x | x in s && keep(x) :: x in r
  {
    if s == [] then []
    else if keep(s[0]) then [s[0]] + Filter(keep, s[1..])
    else Filter(keep, s[1..])
  }

  /** Inserts an element that originally preceded all of `s`. */
  function Insert<T>(leq: (T, T) -> bool, x: T, s: seq<T>): (r: seq<T>)
    ensures multiset(r) == multiset(s) + multiset{x}
  {
    if s == [] || leq(x, s[0]) then [x] + s
    else
      assert s == [s[0]] + s[1..];
      [s[0]] + Insert(leq, x, s[1..])
  }

  function StableSort<T>(leq: (T, T) -> bool, s: seq<T>): (r: seq<T>)
    ensures multiset(r) == multiset(s)
  {
    if s == [] then []
    else
      assert s == [s[0]] + s[1..];
      Insert(leq, s[0], StableSort(leq, s[1..]))
  }

  lemma {:induction false} SameElements<T>(s: seq<T>, t: seq<T>)
    requires multiset(s) == multiset(t)
    ensures |s| == |t|
    ensures forall x | x in s :: x in t
    ensures forall x | x in t :: x in s
  {
    assert |multiset(s)| == |s| && |multiset(t)| == |t|;
    assert forall x | x in s :: x in multiset(t);
    assert forall x | x in t :: x in multiset(s);
  }

  lemma {:induction false} InsertSorted<T(!new)>(leq: (T, T) -> bool, x: T, s: seq<T>)
    requires TotalPreorder(leq) && Pairwise(leq, s)
    ensures Pairwise(leq, Insert(leq, x, s))
  {
    if s == [] || leq(x, s[0]) {
      forall j | 0 <= j < |s| ensures leq(x, s[j]) {
        assert j == 0 || leq(s[0], s[j]);
      }
    } else {
      InsertSorted(leq, x, s[1..]);
      var rest := Insert(leq, x, s[1..]);
      assert multiset(rest) == multiset(s[1..] + [x]);
      SameElements(rest, s[1..] + [x]);
      forall y | y in rest ensures leq(s[0], y) {
        assert y in s[1..] + [x];
      }
    }
  }

  /** Sorting sorts. */
  lemma {:induction false} StableSortSorts<T(!new)>(leq: (T, T) -> bool, s: seq<T>)
    requires TotalPreorder(leq)
    ensures Pairwise(leq, StableSort(leq, s))
  {
    if s != [] {
      StableSortSorts(leq, s[1..]);
      InsertSorted(leq, s[0], StableSort(leq, s[1..]));
    }
  }

  /** Elements that tie with `x`, in their order of appearance. */
  function Ties<T>(leq: (T, T) -> bool, x: T, s: seq<T>): seq<T> {
    Filter(y => leq(x, y) && leq(y, x), s)
  }

  lemma {:induction false} FilterCons<T>(keep: T -> bool, x: T, s: seq<T>)
    ensures Filter(keep, [x] + s) == (if keep(x) then [x] else []) + Filter(keep, s)
  {
    assert ([x] + s)[1..] == s;
    assert [] + Filter(keep, s) == Filter(keep, s);
  }

  lemma {:induction false} FilterConcat<T>(keep: T -> bool, s: seq<T>, t: seq<T>)
    ensures Filter(keep, s + t) == Filter(keep, s) + Filter(keep, t)
  {
    if s == [] {
      assert s + t == t;
    } else {
      var head, rest := [s[0]], s[1..];
      var kept := if keep(s[0]) then head else [];
      assert s == head + rest;
      calc {
        Filter(keep, s + t);
        { Associates(head, rest, t); }
        Filter(keep, head + (rest + t));
        { FilterCons(keep, s[0], rest + t); FilterConcat(keep, rest, t); }
        kept + (Filter(keep, rest) + Filter(keep, t));
        { Associates(kept, Filter(keep, rest), Filter(keep, t)); }
        (kept + Filter(keep, rest)) + Filter(keep, t);
        { FilterCons(keep, s[0], rest); }
        Filter(keep, s) + Filter(keep, t);
      }
    }
  }

  lemma {:induction false} FilterReverse<T>(keep: T -> bool, s: seq<T>)
    ensures Filter(keep, Reverse(s)) == Reverse(Filter(keep, s))
  {
    if s != [] {
      FilterReverse(keep, s[1..]);
      FilterConcat(keep, Reverse(s[1..]), [s[0]]);
      assert Filter(keep, [s[0]]) == if keep(s[0]) then [s[0]] else [];
      ReverseConcat([s[0]], Filter(keep, s[1..]));
    }
  }

  lemma {:induction false} ReverseConcat<T>(s: seq<T>, t: seq<T>)
    ensures Reverse(s + t) == Reverse(t) + Reverse(s)
  {
    assert forall i | 0 <= i < |s + t| :: Reverse(s + t)[i] == (Reverse(t) + Reverse(s))[i];
  }

  lemma {:induction false} InsertStable<T(!new)>(leq: (T, T) -> bool, x: T, s: seq<T>, z: T)
    requires TotalPreorder(leq)
    ensures Ties(leq, z, Insert(leq, x, s)) == Ties(leq, z, [x] + s)
  {
    var keep := y => leq(z, y) && leq(y, z);
    if s != [] && !leq(x, s[0]) {
      var y, rest := s[0], s[1..];
      InsertStable(leq, x, rest, z);
      FilterCons(keep, y, Insert(leq, x, rest));
      FilterCons(keep, x, rest);
      FilterCons(keep, x, s);
      assert !(keep(x) && keep(y));
    }
  }

  /** Sorting never reorders elements that tie. */
  lemma {:induction false} StableSortIsStable<T(!new)>(leq: (T, T) -> bool, s: seq<T>, z: T)
    requires TotalPreorder(leq)
    ensures Ties(leq, z, StableSort(leq, s)) == Ties(leq, z, s)
  {
    if s != [] {
      var keep := y => leq(z, y) && leq(y, z);
      StableSortIsStable(leq, s[1..], z);
      InsertStable(leq, s[0], StableSort(leq, s[1..]), z);
      FilterCons(keep, s[0], StableSort(leq, s[1..]));
      assert [s[0]] + s[1..] == s;
      FilterCons(keep, s[0], s[1..]);
    }
  }

  lemma {:induction false} InsertLast<T>(leq: (T, T) -> bool, x: T, s: seq<T>)
    requires forall y | y in s :: !leq(x, y)
    ensures Insert(leq, x, s) == s + [x]
  {
    if s != [] {
      InsertLast(leq, x, s[1..]);
    }
  }

  /** No later element is at or below an earlier one. */
  ghost predicate StrictlyIncreasing<T>(leq: (T, T) -> bool, s: seq<T>) {
    Pairwise((x, y) => !leq(y, x), s)
  }

  /** Sorting the reversal of a strictly increasing list restores the list. */
  lemma {:induction false} SortRestoresReversal<T>(leq: (T, T) -> bool, s: seq<T>)
    requires StrictlyIncreasing(leq, s)
    ensures StableSort(leq, Reverse(s)) == s
  {
    if s != [] {
      var init, x := s[..|s| - 1], s[|s| - 1];
      assert s == init + [x];
      StrictlyAbove(leq, init, x);
      SortRestoresReversal(leq, init);
      ReverseConcat(init, [x]);
      assert ([x] + Reverse(init))[1..] == Reverse(init);
      InsertLast(leq, x, init);
    }
  }

  lemma {:induction false} StrictlyAbove<T>(leq: (T, T) -> bool, init: seq<T>, x: T)
    requires StrictlyIncreasing(leq, init + [x])
    ensures StrictlyIncreasing(leq, init)
    ensures forall y | y in init :: !leq(x, y)
  {
    var s := init + [x];
    assert forall i | 0 <= i < |init| :: s[i] == init[i] && s[|init|] == x;
  }

  lemma {:induction false} TiesReversed<T(!new)>(leq: (T, T) -> bool, s: seq<T>, z: T)
    requires TotalPreorder(leq)
    ensures Ties(leq, z, StableSort(leq, Reverse(s))) == Reverse(Ties(leq, z, s))
  {
    StableSortIsStable(leq, Reverse(s), z);
    FilterReverse(y => leq(z, y) && leq(y, z), s);
  }

  lemma {:induction false} PalindromicTiesAreSingle<T>(leq: (T, T) -> bool, s: seq<T>, i: nat, j: nat)
    requires i < j < |s| && leq(s[i], s[i]) && leq(s[i], s[j])
    requires Pairwise((x, y) => x != y, s)
    requires Ties(leq, s[i], s) == Reverse(Ties(leq, s[i], s))
    ensures !leq(s[j], s[i])
  {
    var ties := Ties(leq, s[i], s);
    DistinctFilter(y => leq(s[i], y) && leq(y, s[i]), s);
    assert s[i] in ties && s[i] != s[j];
    assert ties[0] == Reverse(ties)[0] == ties[|ties| - 1];
    assert |ties| == 1;
    assert s[j] !in ties && s[j] in s;
  }

  /** A list without repetitions that survives reversal and stable sorting has no ties. */
  lemma {:induction false} RestoredReversalHasNoTies<T(!new)>(leq: (T, T) -> bool, s: seq<T>)
    requires TotalPreorder(leq) && Pairwise(leq, s)
    requires Pairwise((x, y) => x != y, s)
    requires StableSort(leq, Reverse(s)) == s
    ensures StrictlyIncreasing(leq, s)
  {
    forall i, j | 0 <= i < j < |s| ensures !leq(s[j], s[i]) {
      TiesReversed(leq, s, s[i]);
      PalindromicTiesAreSingle(leq, s, i, j);
    }
  }

  lemma {:induction false} DistinctFilter<T>(keep: T -> bool, s: seq<T>)
    requires Pairwise((x, y) => x != y, s)
    ensures Pairwise((x, y) => x != y, Filter(keep, s))
  {
    if s != [] {
      assert s[0] !in s[1..];
      DistinctFilter(keep, s[1..]);
    }
  }

  /** A symmetric relation between all pairs survives reversal and sorting. */
  lemma {:induction false} SymmetricInsert<T(!new)>(leq: (T, T) -> bool, rel: (T, T) -> bool, x: T, s: seq<T>)
    requires forall a, b :: rel(a, b) ==> rel(b, a)
    requires Pairwise(rel, s) && forall y | y in s :: rel(x, y)
    ensures Pairwise(rel, Insert(leq, x, s))
  {
    if s != [] && !leq(x, s[0]) {
      SymmetricInsert(leq, rel, x, s[1..]);
      var rest := Insert(leq, x, s[1..]);
      assert multiset(rest) == multiset(s[1..] + [x]);
      SameElements(rest, s[1..] + [x]);
      forall y | y in rest ensures rel(s[0], y) {
        assert y in s[1..] + [x];
      }
    }
  }

  lemma {:induction false} SymmetricSort<T(!new)>(leq: (T, T) -> bool, rel: (T, T) -> bool, s: seq<T>)
    requires forall a, b :: rel(a, b) ==> rel(b, a)
    requires Pairwise(rel, s)
    ensures Pairwise(rel, StableSort(leq, s))
  {
    if s != [] {
      SymmetricSort(leq, rel, s[1..]);
      SameElements(StableSort(leq, s[1..]), s[1..]);
      SymmetricInsert(leq, rel, s[0], StableSort(leq, s[1..]));
    }
  }

  lemma {:induction false} SortedHeadsAgree<T(!new)>(leq: (T, T) -> bool, s: seq<T>, t: seq<T>)
    requires forall a, b :: leq(a, b) && leq(b, a) ==> a == b
    requires forall a :: leq(a, a)
    requires Pairwise(leq, s) && Pairwise(leq, t) && multiset(s) == multiset(t) && s != []
    ensures t != [] && s[0] == t[0]
  {
    SameElements(s, t);
    assert s[0] in s && s[0] in t;
    var i :| 0 <= i < |t| && t[i] == s[0];
    assert t[0] in t && t[0] in s;
    var j :| 0 <= j < |s| && s[j] == t[0];
    assert leq(t[0], t[i]) && leq(s[0], s[j]);
  }

  lemma {:induction false} MultisetTail<T>(s: seq<T>)
    requires s != []
    ensures s == [s[0]] + s[1..] && multiset(s[1..]) == multiset(s) - multiset{s[0]}
  {
    assert s == [s[0]] + s[1..];
  }

  /** Two sorted lists with the same elements are equal when ties are identities. */
  lemma {:induction false} SortedListsUnique<T(!new)>(leq: (T, T) -> bool, s: seq<T>, t: seq<T>)
    requires forall a, b :: leq(a, b) && leq(b, a) ==> a == b
    requires forall a :: leq(a, a)
    requires Pairwise(leq, s) && Pairwise(leq, t) && multiset(s) == multiset(t)
    ensures s == t
  {
    SameElements(s, t);
    if s != [] {
      SortedHeadsAgree(leq, s, t);
      MultisetTail(s);
      MultisetTail(t);
      SortedListsUnique(leq, s[1..], t[1..]);
    }
  }
}
