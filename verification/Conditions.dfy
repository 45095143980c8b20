/**
  The condition list shared by the three controllers (internal/controller/core/common/conditions.go).
  A list of conditions is used as a map from condition type to condition: `ContainsCondition` searches it and
  `SetCondition` overwrites the entry it finds or appends a new one. Timestamps are not modelled.
 */
module Conditions {
  import opened Wrappers

  datatype Status = True | False | Unknown

  /** `T` is the enumeration of condition types and `R` the enumeration of reasons of one resource kind. */
  datatype Condition<T(==), R> = Condition(ctype: T, status: Status, reason: R, message: string)

  predicate HasType<T(==), R>(cs: seq<Condition<T, R>>, t: T) {
    exists i :: 0 <= i < |cs| && cs[i].ctype == t
  }

  /** At most one condition per type. */
  ghost predicate UniqueTypes<T, R>(cs: seq<Condition<T, R>>) {
    forall i, j :: 0 <= i < j < |cs| ==> cs[i].ctype != cs[j].ctype
  }

  /** The first condition of type `t`, which is what every reader of the list uses. */
  function Find<T(==), R>(cs: seq<Condition<T, R>>, t: T): (r: Option<Condition<T, R>>)
    ensures r.Some? <==> HasType(cs, t)
    ensures r.Some? ==> r.value in cs && r.value.ctype == t
  {
    if cs == [] then None
    else if cs[0].ctype == t then Some(cs[0])
    else
      assert HasType(cs[1..], t) <==> HasType(cs, t) by {
        forall i | 0 < i < |cs| && cs[i].ctype == t ensures HasType(cs[1..], t) { assert cs[1..][i - 1] == cs[i]; }
      }
      Find(cs[1..], t)
  }

  /** The list after storing `c`: the first entry of its type is overwritten, a missing entry is appended. */
  function Put<T(==), R>(cs: seq<Condition<T, R>>, c: Condition<T, R>): (r: seq<Condition<T, R>>)
  {
    if cs == [] then [c]
    else if cs[0].ctype == c.ctype then [c] + cs[1..]
    else [cs[0]] + Put(cs[1..], c)
  }

  /** Storing a condition is a map update: it is found afterwards, and every other type reads as before. */
  lemma {:induction false} FindAfterPut<T, R>(cs: seq<Condition<T, R>>, c: Condition<T, R>, t: T)
    ensures Find(Put(cs, c), t) == if t == c.ctype then Some(c) else Find(cs, t)
  {
    if cs == [] {
    } else if cs[0].ctype == c.ctype {
      assert Put(cs, c)[1..] == cs[1..];
    } else {
      FindAfterPut(cs[1..], c, t);
      assert Put(cs, c)[1..] == Put(cs[1..], c);
    }
  }

  /** Every entry of the new list is the stored condition or an entry of the old list. */
  lemma {:induction false} EntriesAfterPut<T, R>(cs: seq<Condition<T, R>>, c: Condition<T, R>)
    ensures forall x :: x in Put(cs, c) ==> x == c || x in cs
    ensures c in Put(cs, c)
  {
    if cs == [] || cs[0].ctype == c.ctype {
    } else {
      EntriesAfterPut(cs[1..], c);
      assert Put(cs, c) == [cs[0]] + Put(cs[1..], c);
    }
  }

  /** Uniqueness of types is an invariant of the list. */
  lemma {:induction false} PutKeepsUnique<T, R>(cs: seq<Condition<T, R>>, c: Condition<T, R>)
    requires UniqueTypes(cs)
    ensures UniqueTypes(Put(cs, c))
  {
    if cs == [] {
    } else if cs[0].ctype == c.ctype {
      assert Put(cs, c) == [c] + cs[1..];
    } else {
      var rest := Put(cs[1..], c);
      PutKeepsUnique(cs[1..], c);
      EntriesAfterPut(cs[1..], c);
      forall j | 0 <= j < |rest| ensures rest[j].ctype != cs[0].ctype {
        assert rest[j] in rest;
      }
      assert Put(cs, c) == [cs[0]] + rest;
    }
  }

  /** A list with unique types holds, for each type, no other entry than the one `Find` returns. */
  lemma {:induction false} UniqueMeansFound<T, R>(cs: seq<Condition<T, R>>, x: Condition<T, R>)
    requires UniqueTypes(cs) && x in cs
    ensures Find(cs, x.ctype) == Some(x)
  {
    if cs[0] == x {
    } else {
      var i :| 0 <= i < |cs| && cs[i] == x;
      assert x == cs[1..][i - 1];
      UniqueMeansFound(cs[1..], x);
    }
  }

  /** conditions.go:13-20, a linear search with early return. */
  method ContainsCondition<T(==), R>(cs: seq<Condition<T, R>>, t: T) returns (index: int, found: bool)
    ensures found <==> HasType(cs, t)
    ensures found ==> 0 <= index < |cs| && Find(cs, t) == Some(cs[index])
    ensures found ==> forall j :: 0 <= j < index ==> cs[j].ctype != t
    ensures !found ==> index == -1
  {
    var i := 0;
    while i < |cs|
      invariant 0 <= i <= |cs|
      invariant forall j :: 0 <= j < i ==> cs[j].ctype != t
      invariant Find(cs, t) == Find(cs[i..], t)
    {
      if cs[i].ctype == t {
        return i, true;
      }
      assert cs[i..][1..] == cs[i + 1..];
      i := i + 1;
    }
    return -1, false;
  }

  /** The entry overwritten by `Put` is the first one of its type. */
  lemma {:induction false} PutAtFirst<T, R>(cs: seq<Condition<T, R>>, c: Condition<T, R>, i: nat)
    requires i < |cs| && cs[i].ctype == c.ctype
    requires forall j :: 0 <= j < i ==> cs[j].ctype != c.ctype
    ensures Put(cs, c) == cs[i := c]
  {
    if i == 0 {
      assert cs[0 := c] == [c] + cs[1..];
    } else {
      PutAtFirst(cs[1..], c, i - 1);
      assert cs[i := c] == [cs[0]] + cs[1..][i - 1 := c];
    }
  }

  lemma {:induction false} PutAppends<T, R>(cs: seq<Condition<T, R>>, c: Condition<T, R>)
    requires !HasType(cs, c.ctype)
    ensures Put(cs, c) == cs + [c]
  {
    if cs == [] {
    } else {
      assert cs[0].ctype != c.ctype;
      forall i | 0 <= i < |cs[1..]| ensures cs[1..][i].ctype != c.ctype { assert cs[1..][i] == cs[i + 1]; }
      PutAppends(cs[1..], c);
      assert cs + [c] == [cs[0]] + (cs[1..] + [c]);
    }
  }

  /** conditions.go:23-38, overwrite in place or append. */
  method SetCondition<T(==), R>(cs: seq<Condition<T, R>>, t: T, status: Status, reason: R, message: string)
    returns (r: seq<Condition<T, R>>)
    ensures r == Put(cs, Condition(t, status, reason, message))
  {
    var c := Condition(t, status, reason, message);
    var index, found := ContainsCondition(cs, t);
    if found {
      PutAtFirst(cs, c, index);
      r := cs[index := c];
    } else {
      PutAppends(cs, c);
      r := cs + [c];
    }
  }
}
