/** Sorting by a caller-supplied order, as `Array.prototype.sort` does: stable, by insertion here. */
module Sorting {
  ghost predicate StrictOrder<T(!new)>(lt: (T, T) -> bool) {
    && (forall x :: !lt(x, x))
    && (forall x, y, z :: lt(x, y) && lt(y, z) ==> lt(x, z))
  }

  /** A strict order that tells any two distinct values apart. */
  ghost predicate TotalOrder<T(!new)>(lt: (T, T) -> bool) {
    StrictOrder(lt) && forall x, y :: x != y ==> lt(x, y) || lt(y, x)
  }

  ghost predicate Comparable<T>(lt: (T, T) -> bool, s: seq<T>) {
    forall i, j :: 0 <= i < j < |s| ==> lt(s[i], s[j]) || lt(s[j], s[i])
  }

  ghost predicate Ascending<T>(lt: (T, T) -> bool, s: seq<T>) {
    forall i, j :: 0 <= i < j < |s| ==> lt(s[i], s[j])
  }

  function Insert<T>(lt: (T, T) -> bool, x: T, s: seq<T>): seq<T> {
    if s == [] || !lt(s[0], x) then [x] + s else [s[0]] + Insert(lt, x, s[1..])
  }

  function Sort<T>(lt: (T, T) -> bool, s: seq<T>): seq<T> {
    if s == [] then [] else Insert(lt, s[0], Sort(lt, s[1..]))
  }

  lemma {:induction false} InsertMembers<T>(lt: (T, T) -> bool, x: T, s: seq<T>)
    ensures |Insert(lt, x, s)| == |s| + 1
    ensures forall y :: y in Insert(lt, x, s) <==> y == x || y in s
  {
    if s == [] || !lt(s[0], x) {
    } else {
      InsertMembers(lt, x, s[1..]);
      assert s == [s[0]] + s[1..];
    }
  }

  lemma {:induction false} SortMembers<T>(lt: (T, T) -> bool, s: seq<T>)
    ensures |Sort(lt, s)| == |s|
    ensures forall y :: y in Sort(lt, s) <==> y in s
  {
    if s != [] {
      SortMembers(lt, s[1..]);
      InsertMembers(lt, s[0], Sort(lt, s[1..]));
      assert s == [s[0]] + s[1..];
    }
  }

  lemma {:induction false} InsertAscending<T(!new)>(lt: (T, T) -> bool, x: T, s: seq<T>)
    requires StrictOrder(lt) && Ascending(lt, s)
    requires forall y :: y in s ==> lt(x, y) || lt(y, x)
    ensures Ascending(lt, Insert(lt, x, s))
  {
    if s == [] {
    } else if !lt(s[0], x) {
      assert s[0] in s;
      assert forall j :: 0 < j < |s| ==> lt(s[0], s[j]);
    } else {
      var rest := s[1..];
      assert forall y :: y in rest ==> y in s;
      InsertAscending(lt, x, rest);
      InsertMembers(lt, x, rest);
      var t := Insert(lt, x, rest);
      forall j | 0 <= j < |t|
        ensures lt(s[0], t[j])
      {
        assert t[j] in t;
        if t[j] != x {
          var k :| 0 <= k < |rest| && rest[k] == t[j];
          assert s[k + 1] == t[j];
        }
      }
    }
  }

  lemma {:induction false} SortAscending<T(!new)>(lt: (T, T) -> bool, s: seq<T>)
    requires StrictOrder(lt) && Comparable(lt, s)
    ensures Ascending(lt, Sort(lt, s))
  {
    if s != [] {
      var rest := s[1..];
      SortAscending(lt, rest);
      SortMembers(lt, rest);
      forall y | y in Sort(lt, rest)
        ensures lt(s[0], y) || lt(y, s[0])
      {
        var k :| 0 <= k < |rest| && rest[k] == y;
        assert s[k + 1] == y;
      }
      InsertAscending(lt, s[0], Sort(lt, rest));
    }
  }

  /** An ascending sequence is determined by its elements. */
  lemma {:induction false} AscendingUnique<T(!new)>(lt: (T, T) -> bool, a: seq<T>, b: seq<T>)
    requires StrictOrder(lt) && Ascending(lt, a) && Ascending(lt, b)
    requires forall x :: x in a <==> x in b
    ensures a == b
  {
    assert |b| > 0 ==> b[0] in b;
    if a != [] {
      assert a[0] in b;
      var i :| 0 <= i < |b| && b[i] == a[0];
      assert b[0] in a;
      var j :| 0 <= j < |a| && a[j] == b[0];
      assert a[0] == b[0];
      forall x
        ensures x in a[1..] <==> x in b[1..]
      {
        TailMembers(lt, a, x);
        TailMembers(lt, b, x);
      }
      AscendingUnique(lt, a[1..], b[1..]);
      assert a == [a[0]] + a[1..] && b == [b[0]] + b[1..];
    }
  }

  lemma {:induction false} TailMembers<T(!new)>(lt: (T, T) -> bool, a: seq<T>, x: T)
    requires a != [] && StrictOrder(lt) && Ascending(lt, a)
    ensures x in a[1..] <==> x in a && x != a[0]
  {
    assert a == [a[0]] + a[1..];
    if x in a[1..] {
      var k :| 0 <= k < |a[1..]| && a[1..][k] == x;
      assert a[k + 1] == x && lt(a[0], a[k + 1]);
    }
  }

  /** Sorting forgets the order it was given: sequences with the same elements sort alike. */
  lemma {:induction false} SortForgetsOrder<T(!new)>(lt: (T, T) -> bool, a: seq<T>, b: seq<T>)
    requires StrictOrder(lt) && Comparable(lt, a) && Comparable(lt, b)
    requires forall x :: x in a <==> x in b
    ensures Sort(lt, a) == Sort(lt, b)
  {
    SortAscending(lt, a);
    SortAscending(lt, b);
    SortMembers(lt, a);
    SortMembers(lt, b);
    AscendingUnique(lt, Sort(lt, a), Sort(lt, b));
  }

  /** A sequence already ascending is left as it is. */
  lemma {:induction false} SortFixed<T(!new)>(lt: (T, T) -> bool, a: seq<T>)
    requires StrictOrder(lt) && Ascending(lt, a)
    ensures Sort(lt, a) == a
  {
    SortAscending(lt, a);
    SortMembers(lt, a);
    AscendingUnique(lt, Sort(lt, a), a);
  }

  function Map<T, U>(f: T -> U, s: seq<T>): (r: seq<U>)
    ensures |r| == |s| && forall i :: 0 <= i < |s| ==> r[i] == f(s[i])
  {
    if s == [] then [] else [f(s[0])] + Map(f, s[1..])
  }

  /** A change that does not touch what the order looks at can be made before or after sorting. */
  lemma {:induction false} SortMap<T(!new)>(lt: (T, T) -> bool, f: T -> T, s: seq<T>)
    requires forall x, y :: lt(f(x), f(y)) == lt(x, y)
    ensures Sort(lt, Map(f, s)) == Map(f, Sort(lt, s))
  {
    if s != [] {
      SortMap(lt, f, s[1..]);
      InsertMap(lt, f, s[0], Sort(lt, s[1..]));
      assert Map(f, s)[1..] == Map(f, s[1..]);
    }
  }

  lemma {:induction false} InsertMap<T(!new)>(lt: (T, T) -> bool, f: T -> T, x: T, s: seq<T>)
    requires forall x, y :: lt(f(x), f(y)) == lt(x, y)
    ensures Insert(lt, f(x), Map(f, s)) == Map(f, Insert(lt, x, s))
  {
    if s == [] {
      assert Map(f, [x])[1..] == [];
    } else if lt(s[0], x) {
      InsertMap(lt, f, x, s[1..]);
      assert Map(f, s)[1..] == Map(f, s[1..]);
    } else {
      assert Map(f, [x] + s) == [f(x)] + Map(f, s);
    }
  }
}
