/** Pagination (pkg/mongo/generic_repository.go, FindWithOptions). The collection does not change between calls. */
module Paging {
  import opened Wrappers
  import opened Sorting

  // Go's int and int64 have 64 bits.
  const MAX_INT64: int := 0x7FFF_FFFF_FFFF_FFFF
  const TWO_64: int := 0x1_0000_0000_0000_0000

  predicate FitsInt64(x: int) { -MAX_INT64 - 1 <= x <= MAX_INT64 }

  /** The value that 64-bit arithmetic leaves of x. */
  function Wrap(x: int): (w: int)
    ensures FitsInt64(w)
    ensures FitsInt64(x) ==> w == x
    ensures (x - w) % 0x1_0000_0000_0000_0000 == 0
  {
    (x + MAX_INT64 + 1) % TWO_64 - MAX_INT64 - 1
  }

  // A negative skip is the driver's error; the other two are failures of the database.
  datatype QueryError = NegativeSkip | CountFailed | FindFailed

  datatype PageResult<D> = PageResult(items: seq<D>, total: nat, page: int, size: int, totalPages: int)

  // ---------- Sorting ----------

  /** A possible answer of the database to the filter and sort: the matching documents in order. */
  ghost predicate Listing<E>(before: (E, E) -> bool, matching: multiset<E>, rows: seq<E>)
  {
    Sorted(before, rows) && multiset(rows) == matching
  }

  /** A sort that ends with a unique key, such as (createdAt, _id), has no ties, whatever the other fields hold. */
  lemma UniqueKeyHasNoTies<E(!new), K(!new)>(before: (E, E) -> bool, matching: multiset<E>, key: E -> K)
    requires forall a, b :: a in matching && b in matching && key(a) == key(b) ==> a == b
    requires forall a, b :: before(a, b) && before(b, a) ==> key(a) == key(b)
    ensures NoTies(before, matching)
  {
  }

  /** Without ties there is only one answer, so separate queries agree. */
  lemma ListingUnique<E(!new)>(before: (E, E) -> bool, matching: multiset<E>, a: seq<E>, b: seq<E>)
    requires NoTies(before, matching) && Listing(before, matching, a) && Listing(before, matching, b)
    ensures a == b
  {
    SortedUnique(before, a, b);
  }

  // ---------- One page ----------

  /** skip and limit, for a non-negative skip. */
  function Slice<E>(rows: seq<E>, skip: nat, limit: nat): seq<E>
  {
    if skip >= |rows| then []
    else if skip + limit >= |rows| then rows[skip..]
    else rows[skip..skip + limit]
  }

  /** Page `page` of `size` rows, in unbounded arithmetic: the page the caller means. */
  function PageOf<E>(rows: seq<E>, page: int, size: int): seq<E>
    requires page >= 1 && size >= 1
  {
    Slice(rows, (page - 1) * size, size)
  }

  function Pages(total: nat, size: int): nat
    requires size >= 1
  {
    total / size + if total % size != 0 then 1 else 0
  }

  function EffectivePage(page: int): int { if page < 1 then 1 else page }

  function EffectiveSize(size: int): int { if size < 1 then 10 else size }

  /** What the query returns: the driver rejects a negative skip. */
  function Query<E>(rows: seq<E>, page: int, size: int): Result<seq<E>, QueryError>
    requires page >= 1 && size >= 1
  {
    var skip := Wrap((page - 1) * size);
    if skip < 0 then Failure(NegativeSkip) else Success(Slice(rows, skip, size))
  }

  function Map<E, D>(f: E -> D, es: seq<E>): seq<D>
  {
    seq(|es|, i requires 0 <= i < |es| => f(es[i]))
  }

  /** `total` is the answer to the count, and `rows` what matches when the query runs, which is later. */
  method FindWithOptions<E, D>(total: nat, rows: seq<E>, toDomain: E -> D, page: int, size: int,
                               countFails: bool, findFails: bool)
    returns (r: Result<PageResult<D>, QueryError>)
    requires FitsInt64(page) && FitsInt64(size) && FitsInt64(total)
    ensures var p, s := EffectivePage(page), EffectiveSize(size);
            if countFails then r == Failure(CountFailed)
            else match Query(rows, p, s)
              case Failure(e) => r == Failure(e)
              case Success(items) =>
                r == if findFails then Failure(FindFailed)
                     else Success(PageResult(Map(toDomain, items), total, p, s, Pages(total, s)))
    ensures r.Success? ==>
              && r.value.page == (if page < 1 then 1 else page) && r.value.size == (if size < 1 then 10 else size)
              && r.value.total == total
              && (r.value.totalPages - 1) * r.value.size < total <= r.value.totalPages * r.value.size
    ensures r.Success? && FitsInt64((r.value.page - 1) * r.value.size) ==>
              var first := (r.value.page - 1) * r.value.size;
              && |r.value.items| == (if first >= |rows| then 0
                                     else if |rows| - first < r.value.size then |rows| - first else r.value.size)
              && forall i :: 0 <= i < |r.value.items| ==> r.value.items[i] == toDomain(rows[first + i])
  {
    var p, s := page, size;
    if p < 1 {
      p := 1;
    }
    if s < 1 {
      s := 10;
    }
    if countFails {
      return Failure(CountFailed);
    }
    var skip := Wrap((p - 1) * s);
    if skip < 0 {
      return Failure(NegativeSkip);
    }
    if findFails {
      return Failure(FindFailed);
    }
    var entities := Slice(rows, skip, s);
    var domains := [];
    var i := 0;
    while i < |entities|
      invariant 0 <= i <= |entities|
      invariant domains == Map(toDomain, entities[..i])
    {
      domains := domains + [toDomain(entities[i])];
      i := i + 1;
    }
    assert entities[..i] == entities;
    var totalPages := total / s;
    if total % s != 0 {
      totalPages := totalPages + 1;
    }
    PagesIsCeiling(total, s);
    ProductNonNegative(p - 1, s);
    r := Success(PageResult(domains, total, p, s, totalPages));
  }

  // ---------- The pages together ----------

  /** Pages 1 to n, one after the other. */
  function FirstPages<E>(rows: seq<E>, size: int, n: nat): seq<E>
    requires size >= 1
  {
    if n == 0 then [] else FirstPages(rows, size, n - 1) + PageOf(rows, n, size)
  }

  function Prefix<E>(rows: seq<E>, n: nat): seq<E> { if n >= |rows| then rows else rows[..n] }

  lemma {:induction false} FirstPagesArePrefix<E>(rows: seq<E>, size: int, n: nat)
    requires size >= 1
    ensures n * size >= 0
    ensures FirstPages(rows, size, n) == Prefix(rows, n * size)
  {
    if n > 0 {
      FirstPagesArePrefix(rows, size, n - 1);
      assert n * size == (n - 1) * size + size;
      SliceExtends(rows, (n - 1) * size, size);
    }
  }

  lemma SliceExtends<E>(rows: seq<E>, skip: nat, limit: nat)
    ensures Prefix(rows, skip) + Slice(rows, skip, limit) == Prefix(rows, skip + limit)
  {
  }

  /** The number of pages is the rounded-up quotient. */
  lemma PagesIsCeiling(total: nat, size: int)
    requires size >= 1
    ensures (Pages(total, size) - 1) * size < total <= Pages(total, size) * size
  {
    var q, m := total / size, total % size;
    assert total == q * size + m;
    if m == 0 {
      assert (q - 1) * size == q * size - size;
    } else {
      assert (q + 1) * size == q * size + size;
    }
  }

  /** Every page but the last is full, the last is not empty, and later pages are empty. */
  lemma PageLength<E>(rows: seq<E>, page: int, size: int)
    requires page >= 1 && size >= 1
    ensures page < Pages(|rows|, size) ==> |PageOf(rows, page, size)| == size
    ensures page == Pages(|rows|, size) ==> 0 < |PageOf(rows, page, size)| <= size
    ensures page > Pages(|rows|, size) ==> PageOf(rows, page, size) == []
  {
    var n := Pages(|rows|, size);
    PagesIsCeiling(|rows|, size);
    ScaleMonotone(0, page - 1, size);
    if page < n {
      ScaleMonotone(page, n - 1, size);
      SliceLength(rows, (page - 1) * size, size);
    } else if page == n {
      SliceLength(rows, (page - 1) * size, size);
    } else {
      ScaleMonotone(n, page - 1, size);
    }
  }

  lemma ScaleMonotone(a: int, b: int, size: int)
    requires a <= b && size >= 1
    ensures a * size <= b * size
    ensures (a - 1) * size + size == a * size
  {
    assert (b - a) * size >= 0;
    assert b * size == (b - a) * size + a * size;
  }

  lemma SliceLength<E>(rows: seq<E>, skip: nat, limit: nat)
    ensures |Slice(rows, skip, limit)| ==
              if skip >= |rows| then 0 else if skip + limit >= |rows| then |rows| - skip else limit
  {
  }

  /** Pages partition the result: fetched by separate queries, each with its own listing of the matching documents,
      the pages 1 to TotalPages concatenate to the whole listing. */
  lemma PagesPartition<E(!new)>(before: (E, E) -> bool, matching: multiset<E>, listings: seq<seq<E>>,
                                size: int, whole: seq<E>)
    requires NoTies(before, matching) && size >= 1 && Listing(before, matching, whole)
    requires |listings| == Pages(|whole|, size)
    requires forall k :: 0 <= k < |listings| ==> Listing(before, matching, listings[k])
    ensures Concatenated(listings, size, |listings|) == whole
  {
    ConcatenatedIsFirstPages(before, matching, listings, size, whole, |listings|);
    FirstPagesArePrefix(whole, size, |listings|);
    PagesIsCeiling(|whole|, size);
  }

  /** Page k as answered from listing k - 1, for k from 1 to n. */
  function Concatenated<E>(listings: seq<seq<E>>, size: int, n: nat): seq<E>
    requires size >= 1 && n <= |listings|
  {
    if n == 0 then [] else Concatenated(listings, size, n - 1) + PageOf(listings[n - 1], n, size)
  }

  lemma {:induction false} ConcatenatedIsFirstPages<E(!new)>(before: (E, E) -> bool, matching: multiset<E>,
                                                             listings: seq<seq<E>>, size: int, whole: seq<E>, n: nat)
    requires NoTies(before, matching) && size >= 1 && Listing(before, matching, whole) && n <= |listings|
    requires forall k :: 0 <= k < |listings| ==> Listing(before, matching, listings[k])
    ensures Concatenated(listings, size, n) == FirstPages(whole, size, n)
  {
    if n > 0 {
      ConcatenatedIsFirstPages(before, matching, listings, size, whole, n - 1);
      ListingUnique(before, matching, listings[n - 1], whole);
    }
  }

  // ---------- Exactly when the pages partition the result ----------

  /** However the separate queries order ties, the pages together hold every matching document exactly once. */
  ghost predicate AlwaysPartition<E(!new)>(before: (E, E) -> bool, matching: multiset<E>, size: int)
    requires size >= 1
  {
    forall listings: seq<seq<E>> ::
      |listings| == Pages(|matching|, size)
      && (forall k :: 0 <= k < |listings| ==> Listing(before, matching, listings[k]))
      ==> multiset(Concatenated(listings, size, |listings|)) == matching
  }

  lemma {:induction false} SomeListing<E(!new)>(before: (E, E) -> bool, matching: multiset<E>, part: multiset<E>)
    returns (rows: seq<E>)
    requires Sorts(before, matching) && part <= matching
    ensures Listing(before, part, rows)
    decreases |part|
  {
    if |part| == 0 {
      rows := [];
    } else {
      var x :| x in part;
      var rest := SomeListing(before, matching, part - multiset{x});
      forall y | y in rest ensures y in matching {
        assert y in multiset(rest);
      }
      rows := Inserted(before, matching, rest, x);
      assert part == part - multiset{x} + multiset{x};
    }
  }

  /** Two tied documents may change places. */
  lemma SwappedListing<E(!new)>(before: (E, E) -> bool, matching: multiset<E>, rows: seq<E>, i: nat, j: nat)
    requires Sorts(before, matching) && Listing(before, matching, rows) && i < j < |rows| && before(rows[j], rows[i])
    ensures Listing(before, matching, rows[i := rows[j]][j := rows[i]])
  {
    var swapped := rows[i := rows[j]][j := rows[i]];
    forall k | 0 <= k < |rows| ensures rows[k] in matching {
      assert rows[k] in multiset(rows);
    }
    forall m, n | 0 <= m < n < |swapped| ensures before(swapped[m], swapped[n]) {
      SwapOrdered(before, matching, rows, i, j, m, n);
    }
    assert multiset(swapped) == multiset(rows);
  }

  lemma SwapOrdered<E(!new)>(before: (E, E) -> bool, matching: multiset<E>, rows: seq<E>, i: nat, j: nat,
                                  m: nat, n: nat)
    requires Sorts(before, matching) && Sorted(before, rows) && i < j < |rows| && before(rows[j], rows[i])
    requires (forall k :: 0 <= k < |rows| ==> rows[k] in matching) && m < n < |rows|
    ensures var swapped := rows[i := rows[j]][j := rows[i]]; before(swapped[m], swapped[n])
  {
    var m', n' := (if m == i then j else if m == j then i else m), (if n == i then j else if n == j then i else n);
    assert before(rows[i], rows[j]);
    assert m' != n';
    if m' > n' {
      // Both stand between the two tied documents.
      assert i <= n' && m' <= j;
      assert n' == i || before(rows[i], rows[n']);
      assert m' == j || before(rows[m'], rows[j]);
      assert before(rows[i], rows[i]) && before(rows[j], rows[j]);
      assert before(rows[m'], rows[i]);
      assert before(rows[m'], rows[n']);
    }
  }

  /** Wherever two different rows tie, they are on one page. */
  ghost predicate TiesOnOnePage<E(!new)>(before: (E, E) -> bool, rows: seq<E>, size: int)
    requires size >= 1
  {
    forall i, j :: 0 <= i < j < |rows| && before(rows[j], rows[i]) && rows[i] != rows[j] ==> i / size == j / size
  }

  lemma Covers<E(!new)>(a: multiset<E>, b: multiset<E>)
    requires |a| == |b| && forall x :: a[x] >= b[x]
    ensures a == b
  {
    assert a == b + (a - b);
    assert |a - b| == 0;
  }

  lemma FewerSomewhere<E(!new)>(a: multiset<E>, b: multiset<E>) returns (x: E)
    requires |a| == |b| && a != b
    ensures a[x] < b[x]
  {
    if forall x :: a[x] >= b[x] {
      Covers(a, b);
      assert false;
    }
    x :| a[x] < b[x];
  }

  lemma PrefixMember<E>(rows: seq<E>, n: nat, x: E, most: nat) returns (i: nat)
    requires n <= |rows| && multiset(rows[..n])[x] > most
    ensures i < n && rows[i] == x
  {
    assert x in multiset(rows[..n]);
    i :| 0 <= i < n && rows[..n][i] == x;
  }

  lemma SuffixMember<E>(rows: seq<E>, n: nat, x: E) returns (j: nat)
    requires n <= |rows| && multiset(rows[..n])[x] < multiset(rows)[x]
    ensures n <= j < |rows| && rows[j] == x
  {
    assert rows == rows[..n] + rows[n..];
    assert x in multiset(rows[n..]);
    var k :| 0 <= k < |rows[n..]| && rows[n..][k] == x;
    j := n + k;
  }

  /** Where no two different rows of one listing tie across a boundary, every listing has the same rows before it. */
  lemma PrefixAgrees<E(!new)>(before: (E, E) -> bool, matching: multiset<E>, a: seq<E>, b: seq<E>, n: nat)
    requires Listing(before, matching, a) && Listing(before, matching, b) && n <= |a|
    requires forall i, j :: 0 <= i < n <= j < |a| && before(a[j], a[i]) ==> a[i] == a[j]
    ensures |a| == |b| && multiset(a[..n]) == multiset(b[..n])
  {
    SameMembers(a, b);
    var p, q := multiset(a[..n]), multiset(b[..n]);
    if p != q {
      var x := FewerSomewhere(q, p);
      var y := FewerSomewhere(p, q);
      TieAcross(before, matching, a, b, n, x, y);
      var i := PrefixMember(a, n, x, q[x]);
      var j := SuffixMember(a, n, y);
      assert false;
    }
  }

  /** What one listing has before the boundary and the other after it ties with what it is the other way round for. */
  lemma TieAcross<E(!new)>(before: (E, E) -> bool, matching: multiset<E>, a: seq<E>, b: seq<E>, n: nat, x: E, y: E)
    requires Listing(before, matching, a) && Listing(before, matching, b) && n <= |a| == |b|
    requires multiset(b[..n])[x] < multiset(a[..n])[x] && multiset(a[..n])[y] < multiset(b[..n])[y]
    ensures x != y && before(y, x)
    ensures multiset(a[..n])[y] < multiset(a)[y]
  {
    assert a == a[..n] + a[n..] && b == b[..n] + b[n..];
    var i := PrefixMember(b, n, y, multiset(a[..n])[y]);
    var j := SuffixMember(b, n, x);
    assert before(b[i], b[j]);
  }

  lemma Boundary(i: nat, j: nat, k: nat, size: int)
    requires size >= 1 && i < k * size <= j
    ensures i / size != j / size
  {
    if i / size >= k {
      ScaleMonotone(k, i / size, size);
    }
    if j / size < k {
      ScaleMonotone(j / size + 1, k, size);
      ScaleMonotone(j / size, j / size + 1, size);
    }
  }

  /** The first k pages of any listing hold the same documents. */
  lemma PagePrefixAgrees<E(!new)>(before: (E, E) -> bool, matching: multiset<E>, whole: seq<E>, rows: seq<E>,
                                  size: int, k: nat)
    requires size >= 1 && k * size >= 0
    requires Listing(before, matching, whole) && Listing(before, matching, rows) && TiesOnOnePage(before, whole, size)
    ensures multiset(Prefix(whole, k * size)) == multiset(Prefix(rows, k * size))
  {
    SameMembers(whole, rows);
    var n := k * size;
    if n < |whole| {
      forall i, j | 0 <= i < n <= j < |whole| && before(whole[j], whole[i]) ensures whole[i] == whole[j] {
        Boundary(i, j, k, size);
      }
      PrefixAgrees(before, matching, whole, rows, n);
    }
  }

  lemma {:induction false} PagesTogether<E(!new)>(before: (E, E) -> bool, matching: multiset<E>, whole: seq<E>,
                                                  listings: seq<seq<E>>, size: int, n: nat)
    requires size >= 1 && n <= |listings| && Listing(before, matching, whole) && TiesOnOnePage(before, whole, size)
    requires forall k :: 0 <= k < |listings| ==> Listing(before, matching, listings[k])
    ensures n * size >= 0 && multiset(Concatenated(listings, size, n)) == multiset(Prefix(whole, n * size))
  {
    if n > 0 {
      PagesTogether(before, matching, whole, listings, size, n - 1);
      ScaleMonotone(0, n - 1, size);
      ScaleMonotone(n, n, size);
      NextPage(before, matching, whole, listings[n - 1], size, n);
    }
  }

  /** One more page adds the same documents, whichever listing it comes from. */
  lemma NextPage<E(!new)>(before: (E, E) -> bool, matching: multiset<E>, whole: seq<E>, rows: seq<E>, size: int, n: nat)
    requires size >= 1 && n >= 1 && (n - 1) * size >= 0 && n * size == (n - 1) * size + size
    requires Listing(before, matching, whole) && Listing(before, matching, rows) && TiesOnOnePage(before, whole, size)
    ensures multiset(Prefix(whole, n * size))
         == multiset(Prefix(whole, (n - 1) * size)) + multiset(PageOf(rows, n, size))
  {
    SliceExtends(rows, (n - 1) * size, size);
    PagePrefixAgrees(before, matching, whole, rows, size, n - 1);
    PagePrefixAgrees(before, matching, whole, rows, size, n);
    assert multiset(Prefix(rows, n * size)) == multiset(Prefix(rows, (n - 1) * size)) + multiset(PageOf(rows, n, size));
  }

  /** One document once more, another one once less. */
  lemma ReplacedMultiset<E>(rows: seq<E>, i: nat, j: nat)
    requires i < |rows| && j < |rows| && rows[i] != rows[j]
    ensures multiset(rows[j := rows[i]]) == multiset(rows) - multiset{rows[j]} + multiset{rows[i]} != multiset(rows)
  {
    assert multiset(rows[j := rows[i]])[rows[j]] == multiset(rows)[rows[j]] - 1;
  }

  lemma SliceAgrees<E>(a: seq<E>, b: seq<E>, x: nat, skip: nat, limit: nat)
    requires |a| == |b| && (x < skip || skip + limit <= x)
    requires forall k :: 0 <= k < |a| && k != x ==> a[k] == b[k]
    ensures Slice(a, skip, limit) == Slice(b, skip, limit)
  {
  }

  lemma NotOnPage(x: nat, k: nat, size: int)
    requires size >= 1 && k != x / size
    ensures k * size >= 0 && (x < k * size || k * size + size <= x)
  {
    if k < x / size {
      ScaleMonotone(k + 1, x / size, size);
      ScaleMonotone(k, k + 1, size);
    } else {
      ScaleMonotone(x / size + 1, k, size);
      ScaleMonotone(x / size, x / size + 1, size);
    }
    ScaleMonotone(0, k, size);
  }

  /** All pages but the one with row j come from `rows`, and that one from the listing with rows i and j swapped. */
  lemma {:induction false} MixedPages<E>(rows: seq<E>, listings: seq<seq<E>>, size: int, i: nat, j: nat, n: nat)
    requires size >= 1 && i < j < |rows| && i / size != j / size && n <= |listings|
    requires forall k :: 0 <= k < |listings| ==>
               listings[k] == if k == j / size then rows[i := rows[j]][j := rows[i]] else rows
    ensures Concatenated(listings, size, n) == FirstPages(rows[j := rows[i]], size, n)
  {
    if n > 0 {
      MixedPages(rows, listings, size, i, j, n - 1);
      if n - 1 == j / size {
        NotOnPage(i, n - 1, size);
        SliceAgrees(listings[n - 1], rows[j := rows[i]], i, (n - 1) * size, size);
      } else {
        NotOnPage(j, n - 1, size);
        SliceAgrees(listings[n - 1], rows[j := rows[i]], j, (n - 1) * size, size);
      }
    }
  }

  /** When two different documents tie on different pages of some answer, there are answers whose pages show one of
      them once more than it is there, and the other once less. */
  lemma TiesBreakPages<E(!new)>(before: (E, E) -> bool, matching: multiset<E>, size: int, rows: seq<E>, i: nat, j: nat)
    returns (listings: seq<seq<E>>)
    requires Sorts(before, matching) && Listing(before, matching, rows) && size >= 1
    requires i < j < |rows| && before(rows[j], rows[i]) && rows[i] != rows[j] && i / size != j / size
    ensures |listings| == Pages(|matching|, size)
    ensures forall k :: 0 <= k < |listings| ==> Listing(before, matching, listings[k])
    ensures multiset(Concatenated(listings, size, |listings|)) == matching - multiset{rows[j]} + multiset{rows[i]}
    ensures multiset(Concatenated(listings, size, |listings|)) != matching
  {
    SwappedListing(before, matching, rows, i, j);
    var swapped := rows[i := rows[j]][j := rows[i]];
    assert |multiset(rows)| == |rows|;
    var n := Pages(|rows|, size);
    listings := seq(n, k requires 0 <= k < n => if k == j / size then swapped else rows);
    MixedPages(rows, listings, size, i, j, n);
    FirstPagesArePrefix(rows[j := rows[i]], size, n);
    PagesIsCeiling(|rows|, size);
    ReplacedMultiset(rows, i, j);
  }

  /** Pages of a given size partition the result, however the separate queries order ties, if and only if in some
      answer, or equivalently in every one, different documents tie only within a page. */
  lemma PartitionExact<E(!new)>(before: (E, E) -> bool, matching: multiset<E>, size: int, whole: seq<E>)
    requires Sorts(before, matching) && size >= 1 && Listing(before, matching, whole)
    ensures AlwaysPartition(before, matching, size) <==> TiesOnOnePage(before, whole, size)
  {
    if TiesOnOnePage(before, whole, size) {
      assert |multiset(whole)| == |whole|;
      PagesIsCeiling(|whole|, size);
      forall listings: seq<seq<E>> |
        |listings| == Pages(|matching|, size)
        && (forall k :: 0 <= k < |listings| ==> Listing(before, matching, listings[k]))
        ensures multiset(Concatenated(listings, size, |listings|)) == matching
      {
        PagesTogether(before, matching, whole, listings, size, |listings|);
      }
    } else {
      var i, j :| 0 <= i < j < |whole| && before(whole[j], whole[i]) && whole[i] != whole[j] && i / size != j / size;
      var listings := TiesBreakPages(before, matching, size, whole, i, j);
    }
  }

  lemma TiedRows<E(!new)>(before: (E, E) -> bool, matching: multiset<E>, a: E, b: E)
    returns (rows: seq<E>, i: nat, j: nat)
    requires Sorts(before, matching) && a in matching && b in matching
    requires a != b && before(a, b) && before(b, a)
    ensures Listing(before, matching, rows) && |rows| == |matching|
    ensures i < j < |rows| && before(rows[j], rows[i]) && rows[i] != rows[j]
  {
    rows := SomeListing(before, matching, matching);
    assert |multiset(rows)| == |rows|;
    assert a in multiset(rows) && b in multiset(rows);
    var p :| 0 <= p < |rows| && rows[p] == a;
    var q :| 0 <= q < |rows| && rows[q] == b;
    i, j := if p < q then p else q, if p < q then q else p;
  }

  /** For every page size at once, that is: if and only if no two different matching documents tie. */
  lemma PartitionForEverySize<E(!new)>(before: (E, E) -> bool, matching: multiset<E>)
    requires Sorts(before, matching)
    ensures (forall size: int | size >= 1 :: AlwaysPartition(before, matching, size)) <==> NoTies(before, matching)
  {
    if NoTies(before, matching) {
      var whole := SomeListing(before, matching, matching);
      forall size: int | size >= 1 ensures AlwaysPartition(before, matching, size) {
        forall i, j | 0 <= i < j < |whole| && before(whole[j], whole[i]) ensures whole[i] == whole[j] {
          assert whole[i] in multiset(whole) && whole[j] in multiset(whole) && before(whole[i], whole[j]);
        }
        PartitionExact(before, matching, size, whole);
      }
    } else {
      var a, b :| a in matching && b in matching && before(a, b) && before(b, a) && a != b;
      var rows, i, j := TiedRows(before, matching, a, b);
      assert i / 1 != j / 1;
      PartitionExact(before, matching, 1, rows);
    }
  }

  /** The query answers with the page the caller means, for every collection, exactly when the product of
      (page - 1) and size fits in 64 bits. */
  lemma QueryExact<E(!new)>(page: int, size: int, sample: E)
    requires 1 <= page && 1 <= size
    ensures (forall rows: seq<E> :: Query(rows, page, size) == Success(PageOf(rows, page, size)))
            <==> (page - 1) * size <= MAX_INT64
  {
    var product := (page - 1) * size;
    assert product >= 0 by { ProductNonNegative(page - 1, size); }
    if product > MAX_INT64 {
      var skip := Wrap(product);
      var rows: seq<E> := if skip < 0 then [] else seq(skip + 1, i => sample);
      assert PageOf(rows, page, size) == [];
      if skip >= 0 {
        assert Slice(rows, skip, size) != [];
      }
      assert Query(rows, page, size) != Success(PageOf(rows, page, size));
    }
  }

  lemma ProductNonNegative(a: int, b: int)
    requires a >= 0 && b >= 0
    ensures a * b >= 0
  {
  }
}
