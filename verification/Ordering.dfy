/** The standard library's stable sort, and why its result does not depend on the input order. */
module Ordering {
  /** `le` is a total order on the elements of `dom`. */
  ghost predicate TotalOn<T(!new)>(dom: multiset<T>, le: (T, T) -> bool) {
    && (forall a, b :: a in dom && b in dom ==> le(a, b) || le(b, a))
    && (forall a, b, c :: a in dom && b in dom && c in dom && le(a, b) && le(b, c) ==> le(a, c))
    && AntisymmetricOn(dom, le)
  }

  ghost predicate AntisymmetricOn<T(!new)>(dom: multiset<T>, le: (T, T) -> bool) {
    forall a, b :: a in dom && b in dom && le(a, b) && le(b, a) ==> a == b
  }

  ghost predicate Sorted<T>(s: seq<T>, le: (T, T) -> bool) {
    forall i, j :: 0 <= i < j < |s| ==> le(s[i], s[j])
  }

  function Insert<T>(x: T, s: seq<T>, le: (T, T) -> bool): seq<T> {
    if s == [] then [x]
    else if le(x, s[0]) then [x] + s
    else [s[0]] + Insert(x, s[1..], le)
  }

  /** Stable insertion sort; equal elements keep their input order. */
  function Sort<T>(s: seq<T>, le: (T, T) -> bool): seq<T> {
    if s == [] then [] else Insert(s[0], Sort(s[1..], le), le)
  }

  lemma {:induction false} InsertPermutes<T>(x: T, s: seq<T>, le: (T, T) -> bool)
    ensures multiset(Insert(x, s, le)) == multiset{x} + multiset(s)
  {
    if s != [] && !le(x, s[0]) {
      InsertPermutes(x, s[1..], le);
      assert s == [s[0]] + s[1..];
    }
  }

  lemma {:induction false} SortPermutes<T>(s: seq<T>, le: (T, T) -> bool)
    ensures multiset(Sort(s, le)) == multiset(s)
    ensures |Sort(s, le)| == |s|
  {
    if s != [] {
      SortPermutes(s[1..], le);
      InsertPermutes(s[0], Sort(s[1..], le), le);
      assert s == [s[0]] + s[1..];
    }
    assert |multiset(Sort(s, le))| == |multiset(s)|;
  }

  lemma TotalOnSubset<T(!new)>(sub: multiset<T>, dom: multiset<T>, le: (T, T) -> bool)
    requires TotalOn(dom, le) && sub <= dom
    ensures TotalOn(sub, le)
  {
  }

  lemma InsertedInFront<T(!new)>(x: T, s: seq<T>, le: (T, T) -> bool)
    requires TotalOn(multiset{x} + multiset(s), le) && Sorted(s, le) && s != [] && le(x, s[0])
    ensures Sorted([x] + s, le)
  {
    var dom := multiset{x} + multiset(s);
    forall j | 0 <= j < |s|
      ensures le(x, s[j])
    {
      assert x in dom && s[0] in dom && s[j] in dom;
      assert j > 0 ==> le(s[0], s[j]);
    }
  }

  lemma InsertedBehind<T(!new)>(x: T, s: seq<T>, le: (T, T) -> bool)
    requires TotalOn(multiset{x} + multiset(s), le) && Sorted(s, le) && s != [] && !le(x, s[0])
    requires Sorted(Insert(x, s[1..], le), le)
    ensures Sorted([s[0]] + Insert(x, s[1..], le), le)
  {
    var rest := Insert(x, s[1..], le);
    InsertPermutes(x, s[1..], le);
    assert x in multiset{x} + multiset(s) && s[0] in multiset{x} + multiset(s);
    forall j | 0 <= j < |rest|
      ensures le(s[0], rest[j])
    {
      assert rest[j] in multiset(rest);
      if rest[j] != x {
        assert rest[j] in s[1..];
        var i :| 0 <= i < |s[1..]| && s[1..][i] == rest[j];
        assert le(s[0], s[i + 1]);
      }
    }
  }

  lemma {:induction false} InsertSorts<T(!new)>(x: T, s: seq<T>, le: (T, T) -> bool)
    requires TotalOn(multiset{x} + multiset(s), le)
    requires Sorted(s, le)
    ensures Sorted(Insert(x, s, le), le)
  {
    hide TotalOn;
    if s != [] {
      if le(x, s[0]) {
        InsertedInFront(x, s, le);
      } else {
        assert s == [s[0]] + s[1..];
        TotalOnSubset(multiset{x} + multiset(s[1..]), multiset{x} + multiset(s), le);
        InsertSorts(x, s[1..], le);
        InsertedBehind(x, s, le);
      }
    }
  }

  lemma {:induction false} SortSorts<T(!new)>(s: seq<T>, le: (T, T) -> bool)
    requires TotalOn(multiset(s), le)
    ensures Sorted(Sort(s, le), le)
  {
    if s != [] {
      assert s == [s[0]] + s[1..];
      SortSorts(s[1..], le);
      SortPermutes(s[1..], le);
      InsertSorts(s[0], Sort(s[1..], le), le);
    }
  }

  lemma HeadsAgree<T(!new)>(a: seq<T>, b: seq<T>, le: (T, T) -> bool)
    requires AntisymmetricOn(multiset(a), le) && multiset(a) == multiset(b)
    requires Sorted(a, le) && Sorted(b, le) && a != [] && b != []
    ensures a[0] == b[0]
  {
    assert a[0] in multiset(a) && b[0] in multiset(b);
    assert a[0] in b && b[0] in a;
  }

  lemma TailShrinks<T(!new)>(s: seq<T>, le: (T, T) -> bool)
    requires AntisymmetricOn(multiset(s), le) && Sorted(s, le) && s != []
    ensures multiset(s[1..]) == multiset(s) - multiset{s[0]}
    ensures AntisymmetricOn(multiset(s[1..]), le) && Sorted(s[1..], le)
  {
    assert s == [s[0]] + s[1..];
    var tail := multiset(s[1..]);
    assert forall x :: x in tail ==> x in multiset(s);
  }

  /** A sorted arrangement of a multiset is unique when the order is antisymmetric on it. */
  lemma {:induction false} SortedUnique<T(!new)>(a: seq<T>, b: seq<T>, le: (T, T) -> bool)
    requires AntisymmetricOn(multiset(a), le)
    requires multiset(a) == multiset(b)
    requires Sorted(a, le) && Sorted(b, le)
    ensures a == b
  {
    hide AntisymmetricOn, Sorted;
    SameLength(a, b);
    if a != [] {
      HeadsAgree(a, b, le);
      TailShrinks(a, le);
      TailShrinks(b, le);
      SortedUnique(a[1..], b[1..], le);
      HeadAndTail(a);
      HeadAndTail(b);
    }
  }

  lemma HeadAndTail<T>(s: seq<T>)
    requires s != []
    ensures s == [s[0]] + s[1..]
  {
  }

  lemma SameLength<T>(a: seq<T>, b: seq<T>)
    requires multiset(a) == multiset(b)
    ensures |a| == |b|
  {
    assert |multiset(a)| == |multiset(b)|;
  }

  /** Sorting forgets the input order. */
  lemma SortOrderFree<T(!new)>(a: seq<T>, b: seq<T>, le: (T, T) -> bool)
    requires TotalOn(multiset(a), le)
    requires multiset(a) == multiset(b)
    ensures Sort(a, le) == Sort(b, le)
  {
    SortPermutes(a, le);
    SortPermutes(b, le);
    SortSorts(a, le);
    SortSorts(b, le);
    SortedUnique(Sort(a, le), Sort(b, le), le);
  }

  /** A sequence is a fixed point of sorting exactly when it is sorted. */
  lemma SortFixedIff<T(!new)>(s: seq<T>, le: (T, T) -> bool)
    requires TotalOn(multiset(s), le)
    ensures Sort(s, le) == s <==> Sorted(s, le)
  {
    SortPermutes(s, le);
    SortSorts(s, le);
    if Sorted(s, le) {
      SortedUnique(Sort(s, le), s, le);
    }
  }

  lemma SortedConcat<T(!new)>(a: seq<T>, b: seq<T>, le: (T, T) -> bool)
    requires Sorted(a, le) && Sorted(b, le)
    requires forall x, y :: x in a && y in b ==> le(x, y)
    ensures Sorted(a + b, le)
  {
    forall i, j | 0 <= i < j < |a + b|
      ensures le((a + b)[i], (a + b)[j])
    {
      if j < |a| {
        assert le(a[i], a[j]);
      } else if i < |a| {
        assert b[j - |a|] in b;
      } else {
        assert le(b[i - |a|], b[j - |a|]);
      }
    }
  }

  /** A sorted sequence only has to be checked at neighbours. */
  lemma {:induction false} SortedByNeighbours<T(!new)>(s: seq<T>, le: (T, T) -> bool)
    requires TotalOn(multiset(s), le)
    requires forall i :: 0 <= i < |s| - 1 ==> le(s[i], s[i + 1])
    ensures Sorted(s, le)
  {
    if |s| > 1 {
      var init, last := s[..|s| - 1], s[|s| - 1];
      assert s == init + [last];
      TotalOnSubset(multiset(init), multiset(s), le);
      SortedByNeighbours(init, le);
      forall x, y | x in init && y in [last]
        ensures le(x, y)
      {
        var i :| 0 <= i < |init| && init[i] == x;
        assert init[i] in multiset(s) && s[|s| - 2] in multiset(s) && last in multiset(s);
        assert i < |s| - 2 ==> le(init[i], init[|s| - 2]);
      }
      SortedConcat(init, [last], le);
    }
  }

  /** No two positions carry the same key: the contents of a `HashMap`, in some order. */
  predicate UniqueBy<T>(s: seq<T>, key: T -> string) {
    forall i, j :: 0 <= i < j < |s| ==> key(s[i]) != key(s[j])
  }

  lemma {:induction false} MultisetOfDistinct<T(!new)>(s: seq<T>, key: T -> string)
    requires UniqueBy(s, key)
    ensures forall x :: x in s ==> multiset(s)[x] == 1
  {
    if s != [] {
      var init, last := s[..|s| - 1], s[|s| - 1];
      assert s == init + [last];
      MultisetOfDistinct(init, key);
      assert last !in init;
    }
  }

  /** Distinctness of keys survives reordering. */
  lemma {:induction false} UniqueByPermutes<T(!new)>(a: seq<T>, b: seq<T>, key: T -> string)
    requires UniqueBy(a, key)
    requires multiset(a) == multiset(b)
    ensures UniqueBy(b, key)
  {
    MultisetOfDistinct(a, key);
    forall i, j | 0 <= i < j < |b|
      ensures key(b[i]) != key(b[j])
    {
      assert b[i] in multiset(a) && b[j] in multiset(a);
      assert b == b[..j] + b[j..];
      var p :| 0 <= p < |a| && a[p] == b[i];
      var q :| 0 <= q < |a| && a[q] == b[j];
    }
  }

  /** How many elements satisfy `p`. */
  function CountIf<T>(s: seq<T>, p: T -> bool): (n: nat)
    ensures n <= |s|
  {
    if s == [] then 0 else (if p(s[0]) then 1 else 0) + CountIf(s[1..], p)
  }

  lemma {:induction false} CountIfConcat<T>(a: seq<T>, b: seq<T>, p: T -> bool)
    ensures CountIf(a + b, p) == CountIf(a, p) + CountIf(b, p)
  {
    if a == [] {
      assert a + b == b;
    } else {
      assert (a + b)[1..] == a[1..] + b;
      CountIfConcat(a[1..], b, p);
    }
  }

  lemma RemoveOne<T>(a: seq<T>, b: seq<T>, i: nat)
    requires a != [] && i < |b| && b[i] == a[0]
    requires multiset(a) == multiset(b)
    ensures b == b[..i] + [b[i]] + b[i + 1..]
    ensures multiset(a[1..]) == multiset(b[..i] + b[i + 1..])
  {
    assert a == [a[0]] + a[1..];
    assert b == b[..i] + [b[i]] + b[i + 1..];
    assert multiset(a[1..]) == multiset(a) - multiset{a[0]};
    assert multiset(b) == multiset(b[..i]) + multiset{b[i]} + multiset(b[i + 1..]);
    assert multiset(b[..i] + b[i + 1..]) == multiset(b) - multiset{b[i]};
  }

  /** Counting does not see the order. */
  lemma {:induction false} CountIfPermutes<T>(a: seq<T>, b: seq<T>, p: T -> bool)
    requires multiset(a) == multiset(b)
    ensures CountIf(a, p) == CountIf(b, p)
  {
    assert |multiset(a)| == |multiset(b)|;
    if a != [] {
      assert a[0] in multiset(b);
      var i :| 0 <= i < |b| && b[i] == a[0];
      RemoveOne(a, b, i);
      CountIfPermutes(a[1..], b[..i] + b[i + 1..], p);
      CountIfConcat(b[..i] + [b[i]], b[i + 1..], p);
      CountIfConcat(b[..i], [b[i]], p);
      CountIfConcat(b[..i], b[i + 1..], p);
    }
  }
}
