/**
 The library sort that two components rely on: stable, by a total preorder.
 It is specified by insertion, and characterised below as the ordered
 rearrangement that keeps equivalent elements in their original order.
 */
module StableSort {

  ghost predicate TotalPreorder<T(!new)>(le: (T, T) -> bool) {
    && (forall x, y :: le(x, y) || le(y, x))
    && (forall x, y, z :: le(x, y) && le(y, z) ==> le(x, z))
  }

  ghost predicate Ordered<T>(s: seq<T>, le: (T, T) -> bool) {
    forall i, j :: 0 <= i < j < |s| ==> le(s[i], s[j])
  }

  /** Places `x` in front of the first element it may precede. */
  function Insert<T>(x: T, s: seq<T>, le: (T, T) -> bool): (r: seq<T>)
    ensures |r| == |s| + 1
  {
    if s == [] || le(x, s[0]) then [x] + s else [s[0]] + Insert(x, s[1..], le)
  }

  function Sort<T>(s: seq<T>, le: (T, T) -> bool): (r: seq<T>)
    ensures |r| == |s|
  {
    if s == [] then [] else Insert(s[0], Sort(s[1..], le), le)
  }

  /** How many elements satisfy `p`. */
  function Count<T>(s: seq<T>, p: T -> bool): (n: nat)
    ensures n <= |s|
  {
    if s == [] then 0 else (if p(s[0]) then 1 else 0) + Count(s[1..], p)
  }

  function Filter<T>(s: seq<T>, p: T -> bool): seq<T> {
    if s == [] then [] else (if p(s[0]) then [s[0]] else []) + Filter(s[1..], p)
  }

  // ---- Insertion ----

  lemma {:induction false} InsertElements<T>(x: T, s: seq<T>, le: (T, T) -> bool)
    ensures multiset(Insert(x, s, le)) == multiset{x} + multiset(s)
  {
    if s == [] || le(x, s[0]) {
    } else {
      InsertElements(x, s[1..], le);
      assert s == [s[0]] + s[1..];
    }
  }

  lemma {:induction false} InsertOrdered<T(!new)>(x: T, s: seq<T>, le: (T, T) -> bool)
    requires TotalPreorder(le) && Ordered(s, le)
    ensures Ordered(Insert(x, s, le), le)
  {
    if s == [] || le(x, s[0]) {
      forall j | 0 <= j < |s| ensures le(x, s[j]) { assert le(s[0], s[j]) || j == 0; }
    } else {
      InsertOrdered(x, s[1..], le);
      InsertElements(x, s[1..], le);
      var r := Insert(x, s[1..], le);
      forall j | 0 <= j < |r| ensures le(s[0], r[j]) {
        assert r[j] in multiset(r);
        assert r[j] == x || r[j] in s[1..];
      }
    }
  }

  lemma {:induction false} InsertCount<T>(x: T, s: seq<T>, le: (T, T) -> bool, p: T -> bool)
    ensures Count(Insert(x, s, le), p) == (if p(x) then 1 else 0) + Count(s, p)
  {
    if s == [] || le(x, s[0]) {
      assert ([x] + s)[1..] == s;
    } else {
      InsertCount(x, s[1..], le, p);
      var r := Insert(x, s[1..], le);
      assert ([s[0]] + r)[1..] == r;
    }
  }

  /** Elements equivalent to one another are never carried past each other. */
  ghost predicate OneClass<T(!new)>(le: (T, T) -> bool, p: T -> bool) {
    forall x, y :: p(x) && p(y) ==> le(x, y)
  }

  lemma {:induction false} InsertFilter<T(!new)>(x: T, s: seq<T>, le: (T, T) -> bool, p: T -> bool)
    requires OneClass(le, p)
    ensures Filter(Insert(x, s, le), p) == (if p(x) then [x] else []) + Filter(s, p)
  {
    if s == [] || le(x, s[0]) {
      assert ([x] + s)[1..] == s;
    } else {
      assert !(p(x) && p(s[0]));
      InsertFilter(x, s[1..], le, p);
      var r := Insert(x, s[1..], le);
      assert ([s[0]] + r)[1..] == r;
      var first, rest := if p(s[0]) then [s[0]] else [], Filter(s[1..], p);
      var placed := if p(x) then [x] else [];
      assert Filter([s[0]] + r, p) == first + (placed + rest);
      assert first + (placed + rest) == placed + (first + rest);
    }
  }

  // ---- Sorting ----

  lemma {:induction false} SortElements<T>(s: seq<T>, le: (T, T) -> bool)
    ensures multiset(Sort(s, le)) == multiset(s)
  {
    if s == [] {
    } else {
      SortElements(s[1..], le);
      InsertElements(s[0], Sort(s[1..], le), le);
      assert s == [s[0]] + s[1..];
    }
  }

  lemma {:induction false} SortOrdered<T(!new)>(s: seq<T>, le: (T, T) -> bool)
    requires TotalPreorder(le)
    ensures Ordered(Sort(s, le), le)
  {
    if s == [] {
    } else {
      SortOrdered(s[1..], le);
      InsertOrdered(s[0], Sort(s[1..], le), le);
    }
  }

  lemma {:induction false} SortCount<T>(s: seq<T>, le: (T, T) -> bool, p: T -> bool)
    ensures Count(Sort(s, le), p) == Count(s, p)
  {
    if s == [] {
    } else {
      SortCount(s[1..], le, p);
      InsertCount(s[0], Sort(s[1..], le), le, p);
    }
  }

  /** Stability: within a class of equivalent elements the order is untouched. */
  lemma {:induction false} SortIsStable<T(!new)>(s: seq<T>, le: (T, T) -> bool, p: T -> bool)
    requires OneClass(le, p)
    ensures Filter(Sort(s, le), p) == Filter(s, p)
  {
    if s == [] {
    } else {
      SortIsStable(s[1..], le, p);
      InsertFilter(s[0], Sort(s[1..], le), le, p);
    }
  }

  lemma OrderedHeadsAgree<T(!new)>(a: seq<T>, b: seq<T>, le: (T, T) -> bool)
    requires Ordered(a, le) && Ordered(b, le) && (forall x :: le(x, x))
    requires a != [] && b != [] && b[0] in a && a[0] in b
    requires forall x, y :: x in a && y in a && le(x, y) && le(y, x) ==> x == y
    ensures a[0] == b[0]
  {
    var i :| 0 <= i < |a| && a[i] == b[0];
    var j :| 0 <= j < |b| && b[j] == a[0];
    assert le(a[0], a[i]) && le(b[0], b[j]);
  }

  /** When no two listed elements are equivalent, the result depends on the elements alone. */
  lemma {:induction false} OrderedIsUnique<T(!new)>(a: seq<T>, b: seq<T>, le: (T, T) -> bool)
    requires Ordered(a, le) && Ordered(b, le) && (forall x :: le(x, x))
    requires multiset(a) == multiset(b)
    requires forall x, y :: x in a && y in a && le(x, y) && le(y, x) ==> x == y
    ensures a == b
  {
    assert |a| == |multiset(a)| == |multiset(b)| == |b|;
    if a == [] {
    } else {
      assert b[0] in multiset(a) && a[0] in multiset(b);
      OrderedHeadsAgree(a, b, le);
      TailOf(a, le);
      TailOf(b, le);
      OrderedIsUnique(a[1..], b[1..], le);
      assert a == [a[0]] + a[1..] && b == [b[0]] + b[1..];
    }
  }

  lemma TailOf<T>(s: seq<T>, le: (T, T) -> bool)
    requires s != [] && Ordered(s, le)
    ensures Ordered(s[1..], le)
    ensures multiset(s[1..]) == multiset(s) - multiset{s[0]}
    ensures forall x :: x in s[1..] ==> x in s
  {
    assert s == [s[0]] + s[1..];
  }

  // ---- Counting ----

  lemma {:induction false} CountConcat<T>(a: seq<T>, b: seq<T>, p: T -> bool)
    ensures Count(a + b, p) == Count(a, p) + Count(b, p)
  {
    if a == [] {
      assert a + b == b;
    } else {
      CountConcat(a[1..], b, p);
      assert (a + b)[1..] == a[1..] + b;
    }
  }

  lemma {:induction false} FilterConcat<T>(a: seq<T>, b: seq<T>, p: T -> bool)
    ensures Filter(a + b, p) == Filter(a, p) + Filter(b, p)
  {
    if a == [] {
      assert a + b == b;
    } else {
      FilterConcat(a[1..], b, p);
      assert (a + b)[1..] == a[1..] + b;
      assert Filter(a + b, p) == (if p(a[0]) then [a[0]] else []) + Filter(a[1..] + b, p);
    }
  }

  lemma FilterSnoc<T>(s: seq<T>, i: nat, p: T -> bool)
    requires i < |s|
    ensures Filter(s[..i + 1], p) == Filter(s[..i], p) + (if p(s[i]) then [s[i]] else [])
  {
    assert s[..i + 1] == s[..i] + [s[i]];
    FilterConcat(s[..i], [s[i]], p);
  }

  lemma {:induction false} CountAll<T>(s: seq<T>, p: T -> bool)
    requires forall x :: x in s ==> p(x)
    ensures Count(s, p) == |s|
  {
    if s == [] {
    } else {
      CountAll(s[1..], p);
    }
  }

  lemma {:induction false} CountNone<T>(s: seq<T>, p: T -> bool)
    requires forall x :: x in s ==> !p(x)
    ensures Count(s, p) == 0
  {
    if s == [] {
    } else {
      CountNone(s[1..], p);
    }
  }

  lemma {:induction false} CountMissesOne<T>(s: seq<T>, p: T -> bool, x: T)
    requires x in s && !p(x)
    ensures Count(s, p) < |s|
  {
    if s[0] != x { CountMissesOne(s[1..], p, x); }
  }

  lemma {:induction false} CountTwo<T>(s: seq<T>, p: T -> bool, i: nat, j: nat)
    requires i < j < |s| && p(s[i]) && p(s[j])
    ensures Count(s, p) >= 2
  {
    assert s == s[..j] + s[j..] && s[..j] == s[..i] + s[i..j];
    CountConcat(s[..j], s[j..], p);
    CountConcat(s[..i], s[i..j], p);
  }

  lemma {:induction false} FilterMember<T>(s: seq<T>, p: T -> bool, x: T)
    ensures x in Filter(s, p) <==> x in s && p(x)
  {
    if s == [] {
    } else {
      FilterMember(s[1..], p, x);
    }
  }

  lemma {:induction false} CountFilter<T>(s: seq<T>, q: T -> bool, p: T -> bool)
    ensures Count(Filter(s, q), p) <= Count(s, p)
  {
    if s == [] {
    } else {
      CountFilter(s[1..], q, p);
      CountConcat(if q(s[0]) then [s[0]] else [], Filter(s[1..], q), p);
    }
  }

  lemma {:induction false} CountWeaker<T>(s: seq<T>, p: T -> bool, q: T -> bool)
    requires forall x :: x in s && p(x) ==> q(x)
    ensures Count(s, p) <= Count(s, q)
  {
    if s == [] {
    } else {
      CountWeaker(s[1..], p, q);
    }
  }

  lemma CountOne<T>(s: seq<T>, p: T -> bool, i: nat)
    requires i < |s| && p(s[i])
    ensures Count(s, p) >= 1
  {
    assert s == s[..i] + s[i..];
    CountConcat(s[..i], s[i..], p);
  }

  // ---- What comes in front of the first element ----

  lemma {:induction false} InsertPlace<T>(x: T, s: seq<T>, le: (T, T) -> bool) returns (j: nat)
    ensures j < |Insert(x, s, le)| && Insert(x, s, le)[j] == x
    ensures forall i :: 0 <= i < j ==> !le(x, Insert(x, s, le)[i])
  {
    if s == [] || le(x, s[0]) {
      j := 0;
    } else {
      j := InsertPlace(x, s[1..], le);
      j := j + 1;
    }
  }

  /** Only elements that the first one may not precede are sorted in front of it. */
  lemma HeadPlace<T>(s: seq<T>, le: (T, T) -> bool) returns (j: nat)
    requires s != []
    ensures j < |Sort(s, le)| && Sort(s, le)[j] == s[0]
    ensures forall i :: 0 <= i < j ==> !le(s[0], Sort(s, le)[i])
  {
    j := InsertPlace(s[0], Sort(s[1..], le), le);
  }

  /**
   If the first element is a target, and fewer than `m` elements that are not can come in front of it,
   the best `m` elements include a target.
   */
  lemma TopKeepsHead<T(!new)>(s: seq<T>, le: (T, T) -> bool, target: T -> bool, rival: T -> bool, m: nat)
    requires s != [] && target(s[0])
    requires forall x :: x in s && !le(s[0], x) && !target(x) ==> rival(x)
    requires Count(s, rival) < m
    ensures exists i :: 0 <= i < m && i < |s| && target(Sort(s, le)[i])
  {
    hide Sort, Count;
    var sorted := Sort(s, le);
    SortMembers(s, le);
    SortCount(s, le, rival);
    var j := HeadPlace(s, le);
    if j >= m {
      if forall i :: 0 <= i < m ==> !target(sorted[i]) {
        forall i | 0 <= i < m ensures rival(sorted[i]) {
          assert sorted[i] in s && !le(s[0], sorted[i]);
        }
        CountPrefix(sorted, rival, m);
      }
    } else {
      assert target(sorted[j]);
    }
  }

  lemma SortMembers<T>(s: seq<T>, le: (T, T) -> bool)
    ensures forall x :: x in Sort(s, le) <==> x in s
  {
    SortElements(s, le);
    forall x ensures x in Sort(s, le) <==> x in s {
      assert x in multiset(Sort(s, le)) <==> x in multiset(s);
    }
  }

  lemma CountPrefix<T>(s: seq<T>, p: T -> bool, m: nat)
    requires m <= |s| && forall i :: 0 <= i < m ==> p(s[i])
    ensures Count(s, p) >= m
  {
    assert s == s[..m] + s[m..];
    CountAll(s[..m], p);
    CountConcat(s[..m], s[m..], p);
  }
}
