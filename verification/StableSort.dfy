/**
  Stable sorting by a total preorder: what it is, that it is unique, and one way to compute it. Library sorts called by
  the source (Go's sort.SliceStable, the database's ordered queries) are represented by `Sorted`.
 */
module StableSort {

  ghost predicate TotalPreorder<T(!new)>(le: (T, T) -> bool) {
    && (forall x, y :: le(x, y) || le(y, x))
    && (forall x, y, z :: le(x, y) && le(y, z) ==> le(x, z))
  }

  ghost predicate Ordered<T>(le: (T, T) -> bool, s: seq<T>) {
    forall i, j :: 0 <= i < j < |s| ==> le(s[i], s[j])
  }

  predicate Same<T>(le: (T, T) -> bool, x: T, y: T) { le(x, y) && le(y, x) }

  /** The elements of `s` that rank like `x`, in their order. */
  function Class<T>(le: (T, T) -> bool, s: seq<T>, x: T): seq<T> {
    if s == [] then []
    else (if Same(le, s[0], x) then [s[0]] else []) + Class(le, s[1..], x)
  }

  /** `r` is `s` put in order, with elements of equal rank left in their relative order. */
  ghost predicate StablySorts<T(!new)>(le: (T, T) -> bool, s: seq<T>, r: seq<T>) {
    Ordered(le, r) && forall x :: Class(le, r, x) == Class(le, s, x)
  }

  function Insert<T>(le: (T, T) -> bool, s: seq<T>, x: T): seq<T> {
    if s == [] then [x]
    else if le(s[0], x) then [s[0]] + Insert(le, s[1..], x)
    else [x] + s
  }

  function Sorted<T>(le: (T, T) -> bool, s: seq<T>): seq<T> {
    if s == [] then [] else Insert(le, Sorted(le, s[..|s| - 1]), s[|s| - 1])
  }

  lemma {:induction false} ClassConcat<T>(le: (T, T) -> bool, a: seq<T>, b: seq<T>, x: T)
    ensures Class(le, a + b, x) == Class(le, a, x) + Class(le, b, x)
  {
    if a == [] {
      assert a + b == b;
    } else {
      ClassConcat(le, a[1..], b, x);
      assert (a + b)[1..] == a[1..] + b;
    }
  }

  lemma ClassCons<T>(le: (T, T) -> bool, a: T, s: seq<T>, x: T)
    ensures Class(le, [a] + s, x) == (if Same(le, a, x) then [a] else []) + Class(le, s, x)
  {
    assert ([a] + s)[1..] == s;
  }

  lemma ClassUnderHead<T>(le: (T, T) -> bool, a: T, s: seq<T>, r: seq<T>, x: T, y: T)
    requires Class(le, r, y) == Class(le, s, y) + Class(le, [x], y)
    ensures Class(le, [a] + r, y) == Class(le, [a] + s, y) + Class(le, [x], y)
  {
    ClassCons(le, a, r, y);
    ClassCons(le, a, s, y);
  }

  lemma ClassInFront<T>(le: (T, T) -> bool, s: seq<T>, x: T, y: T)
    requires Same(le, x, y) ==> Class(le, s, y) == []
    ensures Class(le, [x] + s, y) == Class(le, s, y) + Class(le, [x], y)
  {
    ClassCons(le, x, s, y);
    ClassCons(le, x, [], y);
    assert [x] + [] == [x];
  }

  lemma {:induction false} InsertMembers<T>(le: (T, T) -> bool, s: seq<T>, x: T)
    ensures forall y :: y in Insert(le, s, x) ==> y == x || y in s
  {
    if s == [] || !le(s[0], x) {
    } else {
      InsertMembers(le, s[1..], x);
    }
  }

  lemma {:induction false} InsertOrdered<T(!new)>(le: (T, T) -> bool, s: seq<T>, x: T)
    requires TotalPreorder(le) && Ordered(le, s)
    ensures Ordered(le, Insert(le, s, x))
  {
    if s == [] {
    } else if le(s[0], x) {
      var rest := Insert(le, s[1..], x);
      InsertOrdered(le, s[1..], x);
      InsertMembers(le, s[1..], x);
      forall j | 0 <= j < |rest| ensures le(s[0], rest[j]) {
        assert rest[j] in rest;
        if rest[j] != x {
          var k :| 0 <= k < |s[1..]| && s[1..][k] == rest[j];
          assert s[k + 1] == rest[j];
        }
      }
    } else {
      forall j | 0 <= j < |s| ensures le(x, s[j]) {
        if j > 0 { assert le(s[0], s[j]); }
      }
    }
  }

  lemma {:induction false} ClassEmpty<T>(le: (T, T) -> bool, s: seq<T>, y: T)
    ensures Class(le, s, y) == [] <==> forall i :: 0 <= i < |s| ==> !Same(le, s[i], y)
  {
    if s == [] {
    } else {
      ClassEmpty(le, s[1..], y);
      assert forall i :: 0 < i < |s| ==> s[i] == s[1..][i - 1];
    }
  }

  /** Nothing that comes after `x` ranks like it. */
  lemma NothingSame<T(!new)>(le: (T, T) -> bool, s: seq<T>, x: T, y: T)
    requires TotalPreorder(le) && Ordered(le, s) && s != [] && !le(s[0], x) && Same(le, x, y)
    ensures Class(le, s, y) == []
  {
    forall i | 0 <= i < |s| ensures !le(s[i], x) {
      assert i > 0 ==> le(s[0], s[i]);
    }
    assert forall i :: 0 <= i < |s| ==> !Same(le, s[i], y);
    ClassEmpty(le, s, y);
  }

  /** Inserting a later element keeps every class in order, the new element last in its own. */
  lemma {:induction false} InsertClass<T(!new)>(le: (T, T) -> bool, s: seq<T>, x: T, y: T)
    requires TotalPreorder(le) && Ordered(le, s)
    ensures Class(le, Insert(le, s, x), y) == Class(le, s, y) + Class(le, [x], y)
  {
    if s == [] {
      ClassInFront(le, s, x, y);
      assert [x] + s == [x];
    } else if le(s[0], x) {
      InsertClass(le, s[1..], x, y);
      ClassUnderHead(le, s[0], s[1..], Insert(le, s[1..], x), x, y);
      assert s == [s[0]] + s[1..];
    } else {
      if Same(le, x, y) { NothingSame(le, s, x, y); }
      ClassInFront(le, s, x, y);
    }
  }

  lemma {:induction false} SortedIsStable<T(!new)>(le: (T, T) -> bool, s: seq<T>)
    requires TotalPreorder(le)
    ensures StablySorts(le, s, Sorted(le, s))
  {
    if s == [] {
    } else {
      var init, x := s[..|s| - 1], s[|s| - 1];
      SortedIsStable(le, init);
      InsertOrdered(le, Sorted(le, init), x);
      forall y ensures Class(le, Sorted(le, s), y) == Class(le, s, y) {
        InsertClass(le, Sorted(le, init), x, y);
        ClassConcat(le, init, [x], y);
        assert s == init + [x];
      }
    }
  }

  lemma HeadHasClass<T(!new)>(le: (T, T) -> bool, s: seq<T>)
    requires TotalPreorder(le)
    ensures s != [] ==> Class(le, s, s[0]) != []
  {}

  lemma {:induction false} SameClasses<T(!new)>(le: (T, T) -> bool, a: seq<T>, b: seq<T>)
    requires TotalPreorder(le) && Ordered(le, a) && Ordered(le, b)
    requires forall x :: Class(le, a, x) == Class(le, b, x)
    ensures a == b
    decreases |a|
  {
    if a == [] {
      HeadHasClass(le, b);
    } else {
      assert Class(le, b, a[0]) == Class(le, a, a[0]) != [];
      ClassEmpty(le, b, a[0]);
      var i :| 0 <= i < |b| && Same(le, b[i], a[0]);
      assert Class(le, a, b[0]) == Class(le, b, b[0]) != [];
      ClassEmpty(le, a, b[0]);
      var j :| 0 <= j < |a| && Same(le, a[j], b[0]);
      assert le(b[0], a[0]) by { if i > 0 { assert le(b[0], b[i]); } }
      assert le(a[0], b[0]) by { if j > 0 { assert le(a[0], a[j]); } }
      assert Class(le, a, a[0])[0] == a[0];
      assert Class(le, b, a[0])[0] == b[0];
      forall x ensures Class(le, a[1..], x) == Class(le, b[1..], x) {
        var head := if Same(le, a[0], x) then [a[0]] else [];
        assert Class(le, a, x) == head + Class(le, a[1..], x);
        assert Class(le, b, x) == head + Class(le, b[1..], x);
        assert (head + Class(le, a[1..], x))[|head|..] == Class(le, a[1..], x);
        assert (head + Class(le, b[1..], x))[|head|..] == Class(le, b[1..], x);
      }
      SameClasses(le, a[1..], b[1..]);
      assert a == [a[0]] + a[1..] && b == [b[0]] + b[1..];
    }
  }

  /** There is only one stable sorting of a sequence, so every stable sorting algorithm returns it. */
  lemma StableSortingIsUnique<T(!new)>(le: (T, T) -> bool, s: seq<T>, a: seq<T>, b: seq<T>)
    requires TotalPreorder(le) && StablySorts(le, s, a) && StablySorts(le, s, b)
    ensures a == b
  {
    SameClasses(le, a, b);
  }

  lemma {:induction false} ClassCounts<T(!new)>(le: (T, T) -> bool, s: seq<T>, x: T)
    requires TotalPreorder(le)
    ensures multiset(Class(le, s, x))[x] == multiset(s)[x]
  {
    if s == [] {
    } else {
      ClassCounts(le, s[1..], x);
      assert s == [s[0]] + s[1..];
      assert le(x, x);
    }
  }

  /** A stable sorting is a permutation. */
  lemma StableSortingPermutes<T(!new)>(le: (T, T) -> bool, s: seq<T>, r: seq<T>)
    requires TotalPreorder(le) && StablySorts(le, s, r)
    ensures multiset(r) == multiset(s)
  {
    forall x: T ensures multiset(r)[x] == multiset(s)[x] {
      ClassCounts(le, s, x);
      ClassCounts(le, r, x);
      assert Class(le, r, x) == Class(le, s, x);
    }
  }

  function Map<T>(f: T -> T, s: seq<T>): seq<T> {
    seq(|s|, i requires 0 <= i < |s| => f(s[i]))
  }

  /** The order does not see what `f` does. */
  ghost predicate KeepsRank<T(!new)>(le: (T, T) -> bool, f: T -> T) {
    forall a, b {:trigger le(f(a), f(b))} :: le(f(a), f(b)) <==> le(a, b)
  }

  lemma {:induction false} InsertMap<T(!new)>(le: (T, T) -> bool, f: T -> T, s: seq<T>, x: T)
    requires KeepsRank(le, f)
    ensures Insert(le, Map(f, s), f(x)) == Map(f, Insert(le, s, x))
  {
    if s == [] {
      assert Map(f, [x]) == [f(x)];
    } else {
      InsertMap(le, f, s[1..], x);
      assert Map(f, s)[1..] == Map(f, s[1..]);
      if le(s[0], x) {
        assert Map(f, [s[0]] + Insert(le, s[1..], x)) == [f(s[0])] + Map(f, Insert(le, s[1..], x));
      } else {
        assert Map(f, [x] + s) == [f(x)] + Map(f, s);
      }
    }
  }

  /** Sorting commutes with a change of the elements that the order does not see. */
  lemma {:induction false} SortedMap<T(!new)>(le: (T, T) -> bool, f: T -> T, s: seq<T>)
    requires KeepsRank(le, f)
    ensures Sorted(le, Map(f, s)) == Map(f, Sorted(le, s))
  {
    if s == [] {
    } else {
      var init := s[..|s| - 1];
      SortedMap(le, f, init);
      InsertMap(le, f, Sorted(le, init), s[|s| - 1]);
      assert Map(f, s)[..|s| - 1] == Map(f, init);
    }
  }

  lemma {:induction false} ClassOfTwo<T(!new)>(le: (T, T) -> bool, s: seq<T>, i: nat, j: nat, x: T)
    requires i < j < |s| && Same(le, s[i], x) && Same(le, s[j], x)
    ensures |Class(le, s, x)| >= 2
  {
    if i == 0 {
      assert s[1..][j - 1] == s[j];
      ClassEmpty(le, s[1..], x);
    } else {
      ClassOfTwo(le, s[1..], i - 1, j - 1, x);
    }
  }

  lemma {:induction false} ClassOfDistinct<T(!new)>(le: (T, T) -> bool, s: seq<T>, x: T)
    requires TotalPreorder(le)
    requires forall i, j :: 0 <= i < j < |s| ==> !Same(le, s[i], s[j])
    ensures |Class(le, s, x)| <= 1
  {
    if s == [] {
    } else {
      ClassOfDistinct(le, s[1..], x);
      if Same(le, s[0], x) {
        forall i | 0 <= i < |s[1..]| ensures !Same(le, s[1..][i], x) {
          assert !Same(le, s[0], s[i + 1]);
        }
        ClassEmpty(le, s[1..], x);
      }
    }
  }

  /** Elements of pairwise different rank come out strictly increasing. */
  lemma StrictlySorted<T(!new)>(le: (T, T) -> bool, s: seq<T>)
    requires TotalPreorder(le)
    requires forall i, j :: 0 <= i < j < |s| ==> !Same(le, s[i], s[j])
    ensures forall i, j :: 0 <= i < j < |Sorted(le, s)| ==>
              le(Sorted(le, s)[i], Sorted(le, s)[j]) && !Same(le, Sorted(le, s)[i], Sorted(le, s)[j])
  {
    var r := Sorted(le, s);
    SortedIsStable(le, s);
    forall i, j | 0 <= i < j < |r| ensures le(r[i], r[j]) && !Same(le, r[i], r[j]) {
      if Same(le, r[i], r[j]) {
        ClassOfTwo(le, r, i, j, r[j]);
        ClassOfDistinct(le, s, r[j]);
      }
    }
  }
}
