/** `array.sort(compare)`: a stable sort, and when its result does not depend on the order it was given. */
module Sorting {

  function Insert<T>(compare: (T, T) -> int, x: T, s: seq<T>): seq<T> {
    if s == [] || compare(x, s[0]) <= 0 then [x] + s else [s[0]] + Insert(compare, x, s[1..])
  }

  function Sort<T>(compare: (T, T) -> int, s: seq<T>): seq<T> {
    if s == [] then [] else Insert(compare, s[0], Sort(compare, s[1..]))
  }

  predicate NeighboursInOrder<T>(compare: (T, T) -> int, s: seq<T>) {
    forall i | 0 < i < |s| :: compare(s[i - 1], s[i]) <= 0
  }

  predicate Ordered<T>(compare: (T, T) -> int, s: seq<T>) {
    forall i, j | 0 <= i < j < |s| :: compare(s[i], s[j]) <= 0
  }

  /** Of two elements at least one comes first. */
  predicate TotalOn<T(==)>(compare: (T, T) -> int, s: seq<T>) {
    forall i, j | 0 <= i < |s| && 0 <= j < |s| :: compare(s[i], s[j]) > 0 ==> compare(s[j], s[i]) <= 0
  }

  /** Besides, the order is transitive and tells any two different elements apart. */
  predicate LinearOn<T(==)>(compare: (T, T) -> int, s: seq<T>) {
    && TotalOn(compare, s)
    && (forall i, j | 0 <= i < |s| && 0 <= j < |s| :: compare(s[i], s[j]) <= 0 && compare(s[j], s[i]) <= 0 ==> s[i] == s[j])
    && (forall i, j, k | 0 <= i < |s| && 0 <= j < |s| && 0 <= k < |s| ::
          compare(s[i], s[j]) <= 0 && compare(s[j], s[k]) <= 0 ==> compare(s[i], s[k]) <= 0)
  }

  predicate Within<T(==)>(s: seq<T>, u: seq<T>) {
    forall i | 0 <= i < |s| :: s[i] in u
  }

  lemma PermutationWithin<T>(s: seq<T>, t: seq<T>)
    requires multiset(s) == multiset(t)
    ensures Within(s, t) && |s| == |t|
  {
    forall i | 0 <= i < |s| ensures s[i] in t {
      assert s[i] in multiset(s);
    }
    assert |multiset(s)| == |s| && |multiset(t)| == |t|;
  }

  lemma TotalPair<T>(compare: (T, T) -> int, u: seq<T>, x: T, y: T)
    requires TotalOn(compare, u) && x in u && y in u
    ensures compare(x, y) > 0 ==> compare(y, x) <= 0
  {
    var i :| 0 <= i < |u| && u[i] == x;
    var j :| 0 <= j < |u| && u[j] == y;
  }

  lemma WithinTransitive<T>(s: seq<T>, t: seq<T>, u: seq<T>)
    requires Within(s, t) && Within(t, u)
    ensures Within(s, u)
  {
    forall i | 0 <= i < |s| ensures s[i] in u {
      var j :| 0 <= j < |t| && t[j] == s[i];
    }
  }

  lemma {:induction false} InsertKeepsOrder<T>(compare: (T, T) -> int, x: T, s: seq<T>, u: seq<T>)
    requires TotalOn(compare, u) && x in u && Within(s, u) && NeighboursInOrder(compare, s)
    ensures NeighboursInOrder(compare, Insert(compare, x, s))
    ensures multiset(Insert(compare, x, s)) == multiset([x]) + multiset(s)
    ensures s != [] ==> Insert(compare, x, s)[0] == x || Insert(compare, x, s)[0] == s[0]
  {
    if s != [] && compare(x, s[0]) > 0 {
      TotalPair(compare, u, x, s[0]);
      InsertKeepsOrder(compare, x, s[1..], u);
      PrependKeepsOrder(compare, s[0], Insert(compare, x, s[1..]));
      assert s == [s[0]] + s[1..];
    } else {
      PrependKeepsOrder(compare, x, s);
    }
  }

  lemma PrependKeepsOrder<T>(compare: (T, T) -> int, x: T, s: seq<T>)
    requires NeighboursInOrder(compare, s) && (s != [] ==> compare(x, s[0]) <= 0)
    ensures NeighboursInOrder(compare, [x] + s)
  {
    forall i | 0 < i < |[x] + s| ensures compare(([x] + s)[i - 1], ([x] + s)[i]) <= 0 {
      assert ([x] + s)[i] == s[i - 1] && (i > 1 ==> ([x] + s)[i - 1] == s[i - 2]);
    }
  }

  lemma WithinRest<T>(s: seq<T>, u: seq<T>)
    requires s != [] && Within(s, u)
    ensures s[0] in u && Within(s[1..], u)
  {
  }

  lemma SortedWithin<T>(compare: (T, T) -> int, s: seq<T>, u: seq<T>)
    requires Within(s, u)
    ensures Within(Sort(compare, s), u)
  {
    var t := Sort(compare, s);
    forall i | 0 <= i < |t| ensures t[i] in u {
      SortMember(compare, s, t[i]);
      var j :| 0 <= j < |s| && s[j] == t[i];
    }
  }

  lemma {:induction false} SortIsOrdered<T>(compare: (T, T) -> int, s: seq<T>, u: seq<T>)
    requires TotalOn(compare, u) && Within(s, u)
    ensures NeighboursInOrder(compare, Sort(compare, s))
    ensures multiset(Sort(compare, s)) == multiset(s)
  {
    if s != [] {
      WithinRest(s, u);
      SortIsOrdered(compare, s[1..], u);
      SortedWithin(compare, s[1..], u);
      InsertKeepsOrder(compare, s[0], Sort(compare, s[1..]), u);
      assert s == [s[0]] + s[1..];
    }
  }

  lemma {:induction false} InsertMember<T>(compare: (T, T) -> int, x: T, s: seq<T>, y: T)
    ensures y in Insert(compare, x, s) <==> y == x || y in s
  {
    if s != [] && compare(x, s[0]) > 0 {
      InsertMember(compare, x, s[1..], y);
      assert s == [s[0]] + s[1..];
    }
  }

  /** Whatever the comparison, sorting keeps exactly the elements. */
  lemma {:induction false} SortMember<T>(compare: (T, T) -> int, s: seq<T>, y: T)
    ensures y in Sort(compare, s) <==> y in s
  {
    if s != [] {
      SortMember(compare, s[1..], y);
      InsertMember(compare, s[0], Sort(compare, s[1..]), y);
      assert s == [s[0]] + s[1..];
    }
  }

  /** Sorting what is in order changes nothing. */
  lemma {:induction false} SortOfOrdered<T>(compare: (T, T) -> int, s: seq<T>)
    requires NeighboursInOrder(compare, s)
    ensures Sort(compare, s) == s
  {
    if s != [] {
      SortOfOrdered(compare, s[1..]);
      assert s == [s[0]] + s[1..];
    }
  }

  lemma {:induction false} NeighboursOrderAll<T>(compare: (T, T) -> int, s: seq<T>, u: seq<T>)
    requires LinearOn(compare, u) && Within(s, u) && NeighboursInOrder(compare, s)
    ensures Ordered(compare, s)
  {
    if |s| > 1 {
      var rest := s[1..];
      NeighboursOrderAll(compare, rest, u);
      forall j | 0 < j < |s| ensures compare(s[0], s[j]) <= 0 {
        assert s[j] == rest[j - 1] && rest[0] == s[1];
        assert j > 1 ==> compare(rest[0], rest[j - 1]) <= 0;
        assert compare(s[0], s[1]) <= 0;
      }
      forall i, j | 0 <= i < j < |s| ensures compare(s[i], s[j]) <= 0 {
        if i > 0 {
          assert s[i] == rest[i - 1] && s[j] == rest[j - 1];
        }
      }
    }
  }

  lemma FirstOfPermutation<T>(compare: (T, T) -> int, s: seq<T>, t: seq<T>, u: seq<T>)
    requires LinearOn(compare, u) && Within(s, u) && Ordered(compare, s) && Ordered(compare, t)
    requires multiset(s) == multiset(t) && s != []
    ensures t != [] && s[0] == t[0]
  {
    PermutationWithin(s, t);
    PermutationWithin(t, s);
    var i :| 0 <= i < |t| && t[i] == s[0];
    var j :| 0 <= j < |s| && s[j] == t[0];
    if i > 0 && j > 0 {
      assert compare(s[0], s[j]) <= 0 && compare(t[0], t[i]) <= 0;
    }
  }

  lemma RestOfPermutation<T>(s: seq<T>, t: seq<T>)
    requires multiset(s) == multiset(t) && s != [] && t != [] && s[0] == t[0]
    ensures multiset(s[1..]) == multiset(t[1..])
  {
    assert s == [s[0]] + s[1..] && t == [t[0]] + t[1..];
    assert multiset(s) == multiset{s[0]} + multiset(s[1..]);
    assert multiset(t) == multiset{t[0]} + multiset(t[1..]);
    assert multiset(s[1..]) == multiset(s) - multiset{s[0]};
    assert multiset(t[1..]) == multiset(t) - multiset{t[0]};
  }

  lemma {:induction false} OrderedPermutationsEqual<T>(compare: (T, T) -> int, s: seq<T>, t: seq<T>, u: seq<T>)
    requires LinearOn(compare, u) && Within(s, u) && Ordered(compare, s) && Ordered(compare, t) && multiset(s) == multiset(t)
    ensures s == t
  {
    PermutationWithin(s, t);
    if s != [] {
      FirstOfPermutation(compare, s, t, u);
      RestOfPermutation(s, t);
      OrderedPermutationsEqual(compare, s[1..], t[1..], u);
      assert s == [s[0]] + s[1..] && t == [t[0]] + t[1..];
    }
  }

  /** Where the order is linear, the sorted result depends only on what is sorted. */
  lemma SortIsCanonical<T>(compare: (T, T) -> int, s: seq<T>, t: seq<T>)
    requires LinearOn(compare, s) && multiset(s) == multiset(t)
    ensures Sort(compare, s) == Sort(compare, t)
  {
    PermutationWithin(t, s);
    SortIsOrdered(compare, s, s);
    SortIsOrdered(compare, t, s);
    PermutationWithin(Sort(compare, s), s);
    PermutationWithin(Sort(compare, t), s);
    NeighboursOrderAll(compare, Sort(compare, s), s);
    NeighboursOrderAll(compare, Sort(compare, t), s);
    OrderedPermutationsEqual(compare, Sort(compare, s), Sort(compare, t), s);
  }

  /** The one ordered arrangement is the sorted one. */
  lemma OrderedIsSorted<T>(compare: (T, T) -> int, s: seq<T>, t: seq<T>)
    requires LinearOn(compare, s) && multiset(s) == multiset(t) && NeighboursInOrder(compare, t)
    ensures Sort(compare, s) == t
  {
    SortIsCanonical(compare, s, t);
    SortOfOrdered(compare, t);
  }
}
