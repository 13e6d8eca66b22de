/** Sorted sequences of a multiset, under an order that is a predicate. */
module Sorting {
  /** The order compares any two of the elements, and does so consistently. */
  ghost predicate Sorts<E(!new)>(before: (E, E) -> bool, all: multiset<E>)
  {
    && (forall a, b :: a in all && b in all ==> before(a, b) || before(b, a))
    && (forall a, b, c :: a in all && b in all && c in all && before(a, b) && before(b, c) ==>
          before(a, c))
  }

  /** No two different elements are equal in the order. */
  ghost predicate NoTies<E(!new)>(before: (E, E) -> bool, all: multiset<E>)
  {
    forall a, b :: a in all && b in all && before(a, b) && before(b, a) ==> a == b
  }

  ghost predicate Sorted<E>(before: (E, E) -> bool, rows: seq<E>)
  {
    forall i, j :: 0 <= i < j < |rows| ==> before(rows[i], rows[j])
  }

  lemma HeadIsLeast<E>(before: (E, E) -> bool, rows: seq<E>, x: E)
    requires Sorted(before, rows) && x in rows
    ensures x == rows[0] || before(rows[0], x)
  {
    var i :| 0 <= i < |rows| && rows[i] == x;
  }

  lemma SameMembers<E>(a: seq<E>, b: seq<E>)
    requires multiset(a) == multiset(b)
    ensures |a| == |b|
    ensures forall x :: x in a <==> x in b
  {
    assert |multiset(a)| == |a| && |multiset(b)| == |b|;
    forall x ensures x in a <==> x in b {
      assert x in a <==> x in multiset(a);
      assert x in b <==> x in multiset(b);
    }
  }

  lemma HeadsAgree<E(!new)>(before: (E, E) -> bool, a: seq<E>, b: seq<E>)
    requires NoTies(before, multiset(a)) && Sorted(before, a) && Sorted(before, b)
    requires multiset(a) == multiset(b) && a != []
    ensures b != [] && a[0] == b[0]
  {
    SameMembers(a, b);
    assert b[0] in a && a[0] in b;
    HeadIsLeast(before, a, b[0]);
    HeadIsLeast(before, b, a[0]);
  }

  lemma TailMultiset<E>(a: seq<E>)
    requires a != []
    ensures multiset(a) == multiset(a[1..]) + multiset{a[0]}
    ensures multiset(a[1..]) == multiset(a) - multiset{a[0]}
  {
    assert a == [a[0]] + a[1..];
  }

  lemma TailListing<E(!new)>(before: (E, E) -> bool, a: seq<E>)
    requires a != [] && NoTies(before, multiset(a)) && Sorted(before, a)
    ensures NoTies(before, multiset(a[1..])) && Sorted(before, a[1..])
  {
    TailMultiset(a);
    forall x | x in multiset(a[1..]) ensures x in multiset(a) {
    }
    forall i, j | 0 <= i < j < |a[1..]| ensures before(a[1..][i], a[1..][j]) {
      assert before(a[i + 1], a[j + 1]);
    }
  }

  /** Without ties a multiset has only one sorted sequence. */
  lemma {:induction false} SortedUnique<E(!new)>(before: (E, E) -> bool, a: seq<E>, b: seq<E>)
    requires NoTies(before, multiset(a)) && Sorted(before, a) && Sorted(before, b) && multiset(a) == multiset(b)
    ensures a == b
    decreases |a|
  {
    SameMembers(a, b);
    if a != [] {
      HeadsAgree(before, a, b);
      TailMultiset(a);
      TailMultiset(b);
      TailListing(before, a);
      assert Sorted(before, b[1..]);
      SortedUnique(before, a[1..], b[1..]);
      HeadAndTail(a, b);
    }
  }

  lemma HeadAndTail<E>(a: seq<E>, b: seq<E>)
    requires a != [] && b != [] && a[0] == b[0] && a[1..] == b[1..]
    ensures a == b
  {
    assert a == [a[0]] + a[1..] && b == [b[0]] + b[1..];
  }

  lemma Before<E(!new)>(before: (E, E) -> bool, all: multiset<E>, a: E, b: E)
    requires Sorts(before, all) && a in all && b in all && !before(a, b)
    ensures before(b, a)
  {
  }

  lemma PutFirst<E>(before: (E, E) -> bool, x: E, rows: seq<E>)
    requires Sorted(before, rows) && forall y :: y in rows ==> before(x, y)
    ensures Sorted(before, [x] + rows)
  {
    var r := [x] + rows;
    forall i, j | 0 <= i < j < |r| ensures before(r[i], r[j]) {
      assert r[j] == rows[j - 1] && rows[j - 1] in rows;
      assert i > 0 ==> r[i] == rows[i - 1];
    }
  }

  /** One more element can always be put in its place. */
  lemma {:induction false} Inserted<E(!new)>(before: (E, E) -> bool, all: multiset<E>, rows: seq<E>, x: E)
    returns (r: seq<E>)
    requires Sorts(before, all) && x in all && Sorted(before, rows)
    requires forall y :: y in rows ==> y in all
    ensures Sorted(before, r) && multiset(r) == multiset(rows) + multiset{x}
  {
    if rows == [] {
      r := [x];
    } else if before(x, rows[0]) {
      forall y | y in rows ensures before(x, y) {
        HeadIsLeast(before, rows, y);
        assert rows[0] in rows;
      }
      PutFirst(before, x, rows);
      r := [x] + rows;
    } else {
      Before(before, all, x, rows[0]);
      var rest := Inserted(before, all, rows[1..], x);
      TailMultiset(rows);
      forall y | y in rest ensures before(rows[0], y) {
        InsertedMember(rest, rows, x, y);
        if y != x {
          TailIsLater(before, rows, y);
        }
      }
      PutFirst(before, rows[0], rest);
      r := [rows[0]] + rest;
    }
  }

  lemma InsertedMember<E>(rest: seq<E>, rows: seq<E>, x: E, y: E)
    requires rows != [] && multiset(rest) == multiset(rows[1..]) + multiset{x} && y in rest
    ensures y == x || y in rows[1..]
  {
    assert y in multiset(rest);
    assert y in multiset(rows[1..]) ==> y in rows[1..];
  }

  lemma TailIsLater<E>(before: (E, E) -> bool, rows: seq<E>, y: E)
    requires rows != [] && Sorted(before, rows) && y in rows[1..]
    ensures before(rows[0], y)
  {
    var i :| 0 <= i < |rows[1..]| && rows[1..][i] == y;
    assert before(rows[0], rows[i + 1]);
  }
}
