/** The query vocabulary every store of the backend shares: row filters,
    folds, the ORDER BY used by the list endpoints, GORM's LIMIT/OFFSET and
    the page clamp the controllers apply to `page` / `page_size`. */
module Query {

  import opened Results

  /** Largest page size a controller lets through. */
  const MaxPageSize := 100

  function Min(a: int, b: int): int { if a <= b then a else b }

  // ---------------------------------------------------------------------
  // Pagination clamp
  // ---------------------------------------------------------------------

  /** A page number below 1 becomes 1; any other page number is kept. */
  function ClampPage(page: int): (p: int)
    ensures 1 <= p
    ensures 1 <= page ==> p == page
    ensures page < 1 ==> p == 1
  {
    if page < 1 then 1 else page
  }

  /** A page size outside [1, 100] becomes the endpoint's default; any
      size inside the range is kept. */
  function ClampSize(size: int, default: int): (s: int)
    requires 1 <= default <= MaxPageSize
    ensures 1 <= s <= MaxPageSize
    ensures 1 <= size <= MaxPageSize ==> s == size
    ensures !(1 <= size <= MaxPageSize) ==> s == default
  {
    if size < 1 || size > MaxPageSize then default else size
  }

  /** Clamping twice changes nothing: a clamped pair is already in range. */
  lemma ClampIsIdempotent(page: int, size: int, default: int)
    requires 1 <= default <= MaxPageSize
    ensures ClampPage(ClampPage(page)) == ClampPage(page)
    ensures ClampSize(ClampSize(size, default), default) == ClampSize(size, default)
  {
  }

  /** Row offset of a 1-based page: `(page - 1) * pageSize`. */
  function Offset(page: int, size: int): int
  {
    (page - 1) * size
  }

  // ---------------------------------------------------------------------
  // LIMIT / OFFSET
  // ---------------------------------------------------------------------

  /** GORM renders OFFSET only when it is positive and LIMIT only when it is
      non-negative, so a negative offset or limit is simply dropped. */
  function Window<T>(rows: seq<T>, offset: int, limit: int): (r: seq<T>)
    ensures limit >= 0 ==> |r| <= limit
    ensures multiset(r) <= multiset(rows)
    ensures offset <= 0 && limit < 0 ==> r == rows
    ensures offset <= 0 && |rows| <= limit ==> r == rows
  {
    var start := if offset > 0 then Min(offset, |rows|) else 0;
    var rest := rows[start..];
    assert rows == rows[..start] + rest;
    assert multiset(rest) <= multiset(rows);
    if 0 <= limit < |rest| then
      assert rest == rest[..limit] + rest[limit..];
      rest[..limit]
    else
      rest
  }

  /** Rows covered by the first n pages, counted page by page. */
  function Covered(n: nat, size: int): int
  {
    if n == 0 then 0 else Covered(n - 1, size) + size
  }

  /** Counting page by page agrees with the controllers' offset formula. */
  lemma {:induction false} CoveredIsOffset(n: nat, size: int)
    ensures Covered(n, size) == Offset(n + 1, size)
  {
    if n > 0 {
      CoveredIsOffset(n - 1, size);
      assert Offset(n + 1, size) == Offset(n, size) + size;
    }
  }

  /** The concatenation of pages 1..n of a listing; page k starts after the
      rows of pages 1..k-1, which is `Offset(k, size)` (CoveredIsOffset). */
  function FirstPages<T>(rows: seq<T>, size: int, n: nat): seq<T>
    requires size >= 1
  {
    if n == 0 then [] else FirstPages(rows, size, n - 1) + Window(rows, Covered(n - 1, size), size)
  }

  /** Consecutive pages tile the listing: pages 1..n together are exactly
      the rows before the offset of page n + 1, each row on one page, none
      skipped or repeated. */
  lemma PagesTile<T>(rows: seq<T>, size: int, n: nat)
    requires size >= 1
    ensures FirstPages(rows, size, n) == rows[..Min(Offset(n + 1, size), |rows|)]
  {
    PagesTileCovered(rows, size, n);
    CoveredIsOffset(n, size);
  }

  lemma {:induction false} PagesTileCovered<T>(rows: seq<T>, size: int, n: nat)
    requires size >= 1
    ensures 0 <= Covered(n, size)
    ensures FirstPages(rows, size, n) == rows[..Min(Covered(n, size), |rows|)]
  {
    if n > 0 {
      PagesTileCovered(rows, size, n - 1);
      var lo := Covered(n - 1, size);
      WindowIsSlice(rows, lo, size);
      JoinSlices(rows, FirstPages(rows, size, n - 1), Window(rows, lo, size), Min(lo, |rows|), Min(lo + size, |rows|));
    }
  }

  /** A prefix followed by the slice right after it is a longer prefix. */
  lemma JoinSlices<T>(rows: seq<T>, prefix: seq<T>, page: seq<T>, lo: int, hi: int)
    requires 0 <= lo <= hi <= |rows|
    requires prefix == rows[..lo] && page == rows[lo..hi]
    ensures prefix + page == rows[..hi]
  {
    assert rows[..hi] == rows[..lo] + rows[lo..hi];
  }

  /** With a non-negative offset and limit the window is a plain slice. */
  lemma WindowIsSlice<T>(rows: seq<T>, offset: int, limit: int)
    requires 0 <= offset && 0 <= limit
    ensures Window(rows, offset, limit) == rows[Min(offset, |rows|)..Min(offset + limit, |rows|)]
  {
  }

  // ---------------------------------------------------------------------
  // Filters and folds
  // ---------------------------------------------------------------------

  /** The rows satisfying `keep`, in their original order (a WHERE clause). */
  function Filter<T(!new)>(rows: seq<T>, keep: T -> bool): (r: seq<T>)
    ensures |r| <= |rows|
    ensures forall x :: x in r <==> x in rows && keep(x)
    ensures forall x :: keep(x) ==> multiset(r)[x] == multiset(rows)[x]
    ensures forall x :: !keep(x) ==> multiset(r)[x] == 0
  {
    if rows == [] then []
    else
      var init := rows[..|rows| - 1];
      var last := rows[|rows| - 1];
      assert rows == init + [last];
      Filter(init, keep) + (if keep(last) then [last] else [])
  }

  /** Filtering after an append filters the two parts separately. */
  lemma FilterAppend<T(!new)>(rows: seq<T>, x: T, keep: T -> bool)
    ensures Filter(rows + [x], keep) == Filter(rows, keep) + (if keep(x) then [x] else [])
  {
    assert (rows + [x])[..|rows + [x]| - 1] == rows;
  }

  /** Filtering a concatenation filters each part. */
  lemma {:induction false} FilterConcat<T(!new)>(a: seq<T>, b: seq<T>, keep: T -> bool)
    ensures Filter(a + b, keep) == Filter(a, keep) + Filter(b, keep)
    decreases |b|
  {
    if b != [] {
      var init := b[..|b| - 1];
      var last := b[|b| - 1];
      assert b == init + [last];
      assert a + b == (a + init) + [last];
      FilterConcat(a, init, keep);
      FilterAppend(a + init, last, keep);
      FilterAppend(init, last, keep);
    } else {
      assert a + b == a;
    }
  }

  /** A rejected row contributes nothing wherever it sits. */
  lemma FilterSkipsRejected<T(!new)>(a: seq<T>, y: T, b: seq<T>, keep: T -> bool)
    requires !keep(y)
    ensures Filter(a + [y] + b, keep) == Filter(a + b, keep)
  {
    FilterConcat(a + [y], b, keep);
    FilterAppend(a, y, keep);
    FilterConcat(a, b, keep);
  }

  /** Removing a row the filter rejects leaves the filtered rows as they
      were. */
  lemma FilterRemoveRejected<T(!new)>(rows: seq<T>, i: nat, keep: T -> bool)
    requires i < |rows| && !keep(rows[i])
    ensures Filter(rows[..i] + rows[i + 1..], keep) == Filter(rows, keep)
  {
    var a, b := rows[..i], rows[i + 1..];
    assert rows[i..] == [rows[i]] + b;
    assert rows == a + rows[i..];
    assert rows == a + [rows[i]] + b;
    FilterSkipsRejected(a, rows[i], b, keep);
  }

  /** Replacing a rejected row by another rejected row leaves the filtered
      rows as they were. */
  lemma FilterReplaceRejected<T(!new)>(rows: seq<T>, i: nat, y: T, keep: T -> bool)
    requires i < |rows| && !keep(rows[i]) && !keep(y)
    ensures Filter(rows[i := y], keep) == Filter(rows, keep)
  {
    assert rows[i := y] == rows[..i] + [y] + rows[i + 1..];
    FilterSkipsRejected(rows[..i], y, rows[i + 1..], keep);
    FilterRemoveRejected(rows, i, keep);
  }

  /** A row in the middle of a sequence adds one to the filter's count
      exactly when the filter keeps it. */
  lemma FilterMiddleCount<T(!new)>(a: seq<T>, x: T, b: seq<T>, keep: T -> bool)
    ensures |Filter(a + [x] + b, keep)| == |Filter(a, keep)| + (if keep(x) then 1 else 0) + |Filter(b, keep)|
  {
    FilterConcat(a + [x], b, keep);
    FilterAppend(a, x, keep);
  }

  /** Replacing a kept row by a rejected one drops exactly one row from the
      filter. */
  lemma FilterReplaceKept<T(!new)>(rows: seq<T>, i: nat, y: T, keep: T -> bool)
    requires i < |rows| && keep(rows[i]) && !keep(y)
    ensures |Filter(rows[i := y], keep)| + 1 == |Filter(rows, keep)|
  {
    var a, b := rows[..i], rows[i + 1..];
    assert rows == a + [rows[i]] + b;
    assert rows[i := y] == a + [y] + b;
    FilterMiddleCount(a, rows[i], b, keep);
    FilterMiddleCount(a, y, b, keep);
  }

  /** Two filters that agree on every row select the same rows. */
  lemma {:induction false} FilterSame<T(!new)>(rows: seq<T>, p: T -> bool, q: T -> bool)
    requires forall x :: p(x) == q(x)
    ensures Filter(rows, p) == Filter(rows, q)
  {
    if rows != [] {
      FilterSame(rows[..|rows| - 1], p, q);
    }
  }

  /** An UPDATE ... WHERE: rows satisfying `p` are rewritten by `f`, the
      others are kept, and the row order is unchanged. */
  function UpdateWhere<T>(rows: seq<T>, p: T -> bool, f: T -> T): (r: seq<T>)
    ensures |r| == |rows|
    ensures forall i :: 0 <= i < |rows| && p(rows[i]) ==> r[i] == f(rows[i])
    ensures forall i :: 0 <= i < |rows| && !p(rows[i]) ==> r[i] == rows[i]
  {
    if rows == [] then []
    else [if p(rows[0]) then f(rows[0]) else rows[0]] + UpdateWhere(rows[1..], p, f)
  }

  /** n copies of x. */
  function Repeat<T>(x: T, n: nat): (r: seq<T>)
    ensures |r| == n && forall y :: y in r ==> y == x
  {
    if n == 0 then [] else Repeat(x, n - 1) + [x]
  }

  /** The rows of a JOIN driven by `rows`: each row appears once per
      partner row it matches, `mult(x)` times. */
  function Expand<T>(rows: seq<T>, mult: T -> nat): seq<T>
  {
    if rows == [] then []
    else Expand(rows[..|rows| - 1], mult) + Repeat(rows[|rows| - 1], mult(rows[|rows| - 1]))
  }

  /** When every row matches at most one partner, the JOIN adds no copies:
      it is the filter "has a partner". */
  lemma {:induction false} ExpandIsFilter<T(!new)>(rows: seq<T>, mult: T -> nat, keep: T -> bool)
    requires forall x :: x in rows ==> mult(x) == (if keep(x) then 1 else 0)
    ensures Expand(rows, mult) == Filter(rows, keep)
  {
    if rows != [] {
      var last := rows[|rows| - 1];
      ExpandIsFilter(rows[..|rows| - 1], mult, keep);
      if keep(last) {
        assert Repeat(last, 1) == [last];
      }
    }
  }

  /** Filtering the rows one filter kept by a second condition is one
      WHERE clause joining both conditions with AND. */
  lemma {:induction false} FilterOfFilter<T(!new)>(rows: seq<T>, p: T -> bool, q: T -> bool, both: T -> bool)
    requires forall x :: both(x) == (p(x) && q(x))
    ensures Filter(Filter(rows, p), q) == Filter(rows, both)
  {
    if rows != [] {
      var init := rows[..|rows| - 1];
      var last := rows[|rows| - 1];
      assert rows == init + [last];
      FilterOfFilter(init, p, q, both);
      FilterAppend(init, last, p);
      FilterAppend(init, last, both);
      var fp := Filter(init, p);
      if p(last) {
        FilterAppend(fp, last, q);
      } else {
        assert Filter(rows, p) == fp;
      }
    }
  }

  /** A stricter filter keeps no more rows. */
  lemma {:induction false} FilterNarrower<T(!new)>(rows: seq<T>, strict: T -> bool, loose: T -> bool)
    requires forall x :: strict(x) ==> loose(x)
    ensures |Filter(rows, strict)| <= |Filter(rows, loose)|
  {
    if rows != [] {
      FilterNarrower(rows[..|rows| - 1], strict, loose);
    }
  }

  /** Splitting a filter into two disjoint cases splits its count. */
  lemma {:induction false} FilterPartition<T(!new)>(rows: seq<T>, keep: T -> bool, left: T -> bool, right: T -> bool)
    requires forall x :: keep(x) <==> left(x) || right(x)
    requires forall x :: !(left(x) && right(x))
    ensures |Filter(rows, keep)| == |Filter(rows, left)| + |Filter(rows, right)|
  {
    if rows != [] {
      FilterPartition(rows[..|rows| - 1], keep, left, right);
    }
  }

  /** A filter nothing passes selects nothing. */
  lemma {:induction false} NoneMatch<T(!new)>(rows: seq<T>, keep: T -> bool)
    requires forall x :: x in rows ==> !keep(x)
    ensures Filter(rows, keep) == []
  {
    if rows != [] {
      NoneMatch(rows[..|rows| - 1], keep);
    }
  }

  /** A rewrite that keeps every row's match status keeps the first match. */
  lemma FirstIndexStable<T>(a: seq<T>, b: seq<T>, p: T -> bool, k: nat)
    requires |a| == |b| && FirstIndex(a, p) == Some(k)
    requires forall i :: 0 <= i < |a| ==> (p(a[i]) <==> p(b[i]))
    ensures FirstIndex(b, p) == Some(k)
  {
    assert p(b[k]);
    assert forall j :: 0 <= j < k ==> !p(b[j]);
  }

  /** A row appended after rows that never matched is the first match. */
  lemma FirstIndexAtEnd<T>(a: seq<T>, b: seq<T>, p: T -> bool)
    requires FirstIndex(a, p).None? && |b| == |a| + 1 && b[..|a|] == a && p(b[|a|])
    ensures FirstIndex(b, p) == Some(|a|)
  {
    assert forall j :: 0 <= j < |a| ==> b[j] == a[j] && !p(b[j]);
  }

  /** Under a uniqueness constraint (`apart` holds between any two rows),
      a filter whose rows can never be apart selects at most one row. */
  lemma AtMostOneSelected<T(!new)>(rows: seq<T>, keep: T -> bool, apart: (T, T) -> bool)
    requires forall i, j :: 0 <= i < j < |rows| ==> apart(rows[i], rows[j])
    requires forall x, y :: keep(x) && keep(y) ==> !apart(x, y)
    ensures |Filter(rows, keep)| <= 1
  {
    FilterKeepsPairwise(rows, keep, apart);
  }

  /** A filter every row passes selects all of them, in order. */
  lemma {:induction false} FilterKeepsAll<T(!new)>(rows: seq<T>, keep: T -> bool)
    requires forall x :: x in rows ==> keep(x)
    ensures Filter(rows, keep) == rows
  {
    if rows != [] {
      var init := rows[..|rows| - 1];
      assert rows == init + [rows[|rows| - 1]];
      FilterKeepsAll(init, keep);
    }
  }

  /** A filter selects something exactly when some row passes it. */
  lemma FilterNonEmpty<T(!new)>(rows: seq<T>, keep: T -> bool)
    ensures |Filter(rows, keep)| > 0 <==> exists x :: x in rows && keep(x)
  {
    var f := Filter(rows, keep);
    if |f| > 0 {
      assert f[0] in f;
    }
  }

  /** Index of the first row satisfying `p` (primary-key order), as GORM's
      `Where(...).First(&row)` returns it. */
  function FirstIndex<T>(rows: seq<T>, p: T -> bool): (r: Option<nat>)
    ensures r.Some? ==> r.value < |rows| && p(rows[r.value])
    ensures r.Some? ==> forall j :: 0 <= j < r.value ==> !p(rows[j])
    ensures r.None? <==> forall j :: 0 <= j < |rows| ==> !p(rows[j])
  {
    if rows == [] then None
    else if p(rows[0]) then Some(0)
    else match FirstIndex(rows[1..], p)
      case None => None
      case Some(k) => Some(k + 1)
  }

  /** Rows satisfying `keep` keep every pairwise relation the input had
      between its rows, in the same order. */
  lemma {:induction false} FilterKeepsPairwise<T(!new)>(rows: seq<T>, keep: T -> bool, ok: (T, T) -> bool)
    requires forall i, j :: 0 <= i < j < |rows| ==> ok(rows[i], rows[j])
    ensures forall i, j :: 0 <= i < j < |Filter(rows, keep)| ==> ok(Filter(rows, keep)[i], Filter(rows, keep)[j])
  {
    if rows != [] {
      var init := rows[..|rows| - 1];
      var last := rows[|rows| - 1];
      FilterKeepsPairwise(init, keep, ok);
      assert rows == init + [last];
      FilterAppend(init, last, keep);
      var fi := Filter(init, keep);
      if keep(last) {
        LastRelatesToAll(init, last, ok);
        assert forall y :: y in fi ==> y in init;
        PairwiseSnoc(fi, last, ok);
      }
    }
  }

  /** In a pairwise-related sequence every earlier element relates to the
      last one. */
  lemma LastRelatesToAll<T>(init: seq<T>, last: T, ok: (T, T) -> bool)
    requires forall i, j :: 0 <= i < j < |init + [last]| ==> ok((init + [last])[i], (init + [last])[j])
    ensures forall y :: y in init ==> ok(y, last)
  {
    var rows := init + [last];
    forall y | y in init ensures ok(y, last) {
      var k :| 0 <= k < |init| && init[k] == y;
      assert rows[k] == y && rows[|init|] == last;
    }
  }

  /** A pairwise relation survives appending an element every earlier one
      relates to. */
  lemma PairwiseSnoc<T>(a: seq<T>, x: T, ok: (T, T) -> bool)
    requires forall i, j :: 0 <= i < j < |a| ==> ok(a[i], a[j])
    requires forall y :: y in a ==> ok(y, x)
    ensures forall i, j :: 0 <= i < j < |a + [x]| ==> ok((a + [x])[i], (a + [x])[j])
  {
    var r := a + [x];
    forall i, j | 0 <= i < j < |r| ensures ok(r[i], r[j]) {
      assert r[i] == a[i] && a[i] in a;
      if j < |a| {
        assert r[j] == a[j];
      }
    }
  }

  /** A fold adding `f` over the rows (SUM, or COUNT with f == 1). */
  function Sum<T>(rows: seq<T>, f: T -> int): int
  {
    if rows == [] then 0 else Sum(rows[..|rows| - 1], f) + f(rows[|rows| - 1])
  }

  lemma SumAppend<T>(rows: seq<T>, x: T, f: T -> int)
    ensures Sum(rows + [x], f) == Sum(rows, f) + f(x)
  {
    assert (rows + [x])[..|rows + [x]| - 1] == rows;
  }

  /** Removing the row at index i takes f(rows[i]) out of the sum. */
  lemma {:induction false} SumRemove<T>(rows: seq<T>, i: nat, f: T -> int)
    requires i < |rows|
    ensures Sum(rows, f) == Sum(rows[..i] + rows[i + 1..], f) + f(rows[i])
  {
    var n := |rows|;
    if i < n - 1 {
      var init := rows[..n - 1];
      SumRemove(init, i, f);
      assert init[..i] + init[i + 1..] + [rows[n - 1]] == rows[..i] + rows[i + 1..];
      SumAppend(init[..i] + init[i + 1..], rows[n - 1], f);
    } else {
      assert rows[..i] + rows[i + 1..] == rows[..n - 1];
    }
  }

  /** A fold does not depend on the order of the rows: any permutation of
      the rows has the same sum. */
  lemma {:induction false} SumOfPermutation<T>(a: seq<T>, b: seq<T>, f: T -> int)
    requires multiset(a) == multiset(b)
    ensures Sum(a, f) == Sum(b, f)
    decreases |a|
  {
    if a != [] {
      var n := |a|;
      var x := a[n - 1];
      assert a == a[..n - 1] + [x];
      assert x in multiset(b);
      var i :| 0 <= i < |b| && b[i] == x;
      var rest := b[..i] + b[i + 1..];
      assert b == b[..i] + [x] + b[i + 1..];
      assert multiset(a) == multiset(a[..n - 1]) + multiset{x};
      assert multiset(b) == multiset(b[..i]) + multiset{x} + multiset(b[i + 1..]);
      assert multiset(rest) == multiset(b[..i]) + multiset(b[i + 1..]);
      assert multiset(a[..n - 1]) == multiset(a) - multiset{x};
      assert multiset(rest) == multiset(b) - multiset{x};
      SumOfPermutation(a[..n - 1], rest, f);
      SumRemove(b, i, f);
    } else {
      assert |multiset(b)| == 0;
    }
  }

  /** A sum of non-negative terms is non-negative. */
  lemma {:induction false} SumNonNegative<T>(rows: seq<T>, f: T -> int)
    requires forall x :: x in rows ==> f(x) >= 0
    ensures Sum(rows, f) >= 0
  {
    if rows != [] {
      SumNonNegative(rows[..|rows| - 1], f);
    }
  }

  // ---------------------------------------------------------------------
  // ORDER BY
  // ---------------------------------------------------------------------

  /** A sort key of up to three columns, compared left to right. */
  datatype Key = Key(major: int, middle: int, minor: int)

  /** Lexicographic "a sorts no later than b" in a DESC ordering. */
  predicate KeyGe(a: Key, b: Key)
  {
    || a.major > b.major
    || (a.major == b.major && a.middle > b.middle)
    || (a.major == b.major && a.middle == b.middle && a.minor >= b.minor)
  }

  /** `rows` is ordered by `key`, largest first. */
  ghost predicate SortedDesc<T>(rows: seq<T>, key: T -> Key)
  {
    forall i, j :: 0 <= i < j < |rows| ==> KeyGe(key(rows[i]), key(rows[j]))
  }

  function Insert<T>(x: T, rows: seq<T>, key: T -> Key): (r: seq<T>)
    requires SortedDesc(rows, key)
    ensures SortedDesc(r, key)
    ensures multiset(r) == multiset(rows) + multiset{x}
  {
    if rows == [] then [x]
    else if KeyGe(key(x), key(rows[0])) then
      [x] + rows
    else
      var tail := Insert(x, rows[1..], key);
      assert rows == [rows[0]] + rows[1..];
      BelowHead(rows[0], x, rows[1..], tail, key);
      SortedCons(rows[0], tail, key);
      [rows[0]] + tail
  }

  /** When `x` sorts after the head of a sorted sequence, so does every
      row of any rearrangement of its tail with `x` added. */
  lemma BelowHead<T>(h: T, x: T, rest: seq<T>, tail: seq<T>, key: T -> Key)
    requires SortedDesc([h] + rest, key)
    requires !KeyGe(key(x), key(h))
    requires multiset(tail) == multiset(rest) + multiset{x}
    ensures forall k :: 0 <= k < |tail| ==> KeyGe(key(h), key(tail[k]))
  {
    forall k | 0 <= k < |tail| ensures KeyGe(key(h), key(tail[k])) {
      assert tail[k] in multiset(tail);
      if tail[k] != x {
        assert tail[k] in multiset(rest);
        var m :| 0 <= m < |rest| && rest[m] == tail[k];
        assert ([h] + rest)[0] == h && ([h] + rest)[m + 1] == rest[m];
      }
    }
  }

  /** A head that sorts no later than every row of a sorted tail keeps the
      sequence sorted. */
  lemma SortedCons<T>(h: T, tail: seq<T>, key: T -> Key)
    requires SortedDesc(tail, key)
    requires forall k :: 0 <= k < |tail| ==> KeyGe(key(h), key(tail[k]))
    ensures SortedDesc([h] + tail, key)
  {
    var r := [h] + tail;
    forall i, j | 0 <= i < j < |r| ensures KeyGe(key(r[i]), key(r[j])) {
      assert r[j] == tail[j - 1];
      if i > 0 {
        assert r[i] == tail[i - 1];
      }
    }
  }

  /** Stable insertion sort: the rows reordered by `key`, largest first. */
  function SortDesc<T>(rows: seq<T>, key: T -> Key): (r: seq<T>)
    ensures SortedDesc(r, key)
    ensures multiset(r) == multiset(rows)
  {
    if rows == [] then []
    else
      assert rows == [rows[0]] + rows[1..];
      Insert(rows[0], SortDesc(rows[1..], key), key)
  }

  /** Rows whose major keys are pairwise distinct, largest first. */
  ghost predicate StrictlyDescMajor<T>(rows: seq<T>, key: T -> Key)
  {
    forall i, j :: 0 <= i < j < |rows| ==> key(rows[i]).major > key(rows[j]).major
  }

  /** Two such orderings of the same non-empty rows start with the same
      row: the one with the largest major key. */
  lemma SortedHeadsAgree<T>(a: seq<T>, b: seq<T>, key: T -> Key)
    requires StrictlyDescMajor(a, key) && SortedDesc(b, key)
    requires multiset(a) == multiset(b) && a != [] && b != []
    ensures a[0] == b[0]
  {
    assert a[0] in multiset(b);
    var j :| 0 <= j < |b| && b[j] == a[0];
    assert KeyGe(key(b[0]), key(b[j]));
    assert b[0] in multiset(a);
    var i :| 0 <= i < |a| && a[i] == b[0];
    assert key(a[i]).major >= key(a[0]).major;
  }

  /** When no two rows share a major key, there is only one way to order
      them: any two descending orderings of the same rows coincide. */
  lemma {:induction false} SortedIsUnique<T>(a: seq<T>, b: seq<T>, key: T -> Key)
    requires StrictlyDescMajor(a, key) && SortedDesc(b, key)
    requires multiset(a) == multiset(b)
    ensures a == b
  {
    assert |a| == |multiset(a)| == |multiset(b)| == |b|;
    if a != [] {
      SortedHeadsAgree(a, b, key);
      assert a == [a[0]] + a[1..] && b == [b[0]] + b[1..];
      assert multiset(a[1..]) == multiset(a) - multiset{a[0]};
      assert multiset(b[1..]) == multiset(b) - multiset{b[0]};
      SortedIsUnique(a[1..], b[1..], key);
    }
  }

  // ---------------------------------------------------------------------
  // Paged listings
  // ---------------------------------------------------------------------

  /** What every list endpoint returns: one page of rows and the size of the
      whole filtered set the page was cut from. */
  datatype Listing<T> = Listing(items: seq<T>, total: nat)

  /** A list endpoint's answer: the listing plus the page number and page
      size it was computed for, echoed back to the client. */
  datatype Paged<T> = Paged(listing: Listing<T>, page: int, size: int)

  /** `items` is the LIMIT/OFFSET window of some ordering of `matching` by
      `key` (ties among equal keys may fall either way, as in SQL). */
  ghost predicate WindowOfOrdered<T(!new)>(items: seq<T>, matching: seq<T>, key: T -> Key, offset: int, limit: int)
  {
    exists ordered: seq<T> ::
      && multiset(ordered) == multiset(matching)
      && SortedDesc(ordered, key)
      && items == Window(ordered, offset, limit)
  }

  /** SELECT COUNT(*) and SELECT ... ORDER BY ... LIMIT ... OFFSET ... over
      the same WHERE clause, already applied to `matching`. */
  function PageOf<T(!new)>(matching: seq<T>, key: T -> Key, offset: int, limit: int): (r: Listing<T>)
    ensures r.total == |matching|
    ensures WindowOfOrdered(r.items, matching, key, offset, limit)
    ensures forall x :: x in r.items ==> x in matching
    ensures limit >= 0 ==> |r.items| <= limit
    ensures offset <= 0 && limit < 0 ==> |r.items| == |matching|
  {
    var ordered := SortDesc(matching, key);
    var items := Window(ordered, offset, limit);
    assert forall x :: x in items ==> x in multiset(ordered);
    assert |ordered| == |multiset(ordered)| == |matching|;
    Listing(items, |matching|)
  }
}
