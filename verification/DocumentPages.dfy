/** Keyset pagination over the document collection (processor/duckdb_api.py). */
module DocumentPages {
  import opened Outcomes
  import Ordering

  datatype Row = Row(docId: string, validFrom: int, quality: real, sourceQuality: real, perplexity: real, title: string)

  datatype Cursor = Cursor(sort: string, validFrom: int, docId: string, score: Option<real>)

  datatype Page = Page(items: seq<Row>, total: nat, pageSize: nat, pages: nat, next: Option<Cursor>, hasMore: bool)
  datatype Response = Ok(page: Page) | SortMismatch | MissingScore

  // ---- The five orders -----------------------------------------------------------------------

  /** `valid_from DESC, doc_id ASC` */
  predicate NewerFirst(a: Row, b: Row) {
    a.validFrom > b.validFrom || (a.validFrom == b.validFrom && Ordering.LexLess(a.docId, b.docId))
  }

  /** `ORDER BY`: whether `a` comes strictly before `b`; an unknown sort is the default. */
  predicate Before(sort: string, a: Row, b: Row) {
    if sort == "oldest" then
      a.validFrom < b.validFrom || (a.validFrom == b.validFrom && Ordering.LexLess(a.docId, b.docId))
    else if sort == "quality_desc" then a.quality > b.quality || (a.quality == b.quality && NewerFirst(a, b))
    else if sort == "source_quality_desc" then
      a.sourceQuality > b.sourceQuality || (a.sourceQuality == b.sourceQuality && NewerFirst(a, b))
    else if sort == "perplexity_asc" then a.perplexity < b.perplexity || (a.perplexity == b.perplexity && NewerFirst(a, b))
    else NewerFirst(a, b)
  }

  // ---- Cursors -------------------------------------------------------------------------------

  function EncodeCursor(row: Row, sort: string): Cursor {
    Cursor(sort, row.validFrom, row.docId,
           if sort == "quality_desc" then Some(row.quality)
           else if sort == "source_quality_desc" then Some(row.sourceQuality)
           else if sort == "perplexity_asc" then Some(row.perplexity)
           else None)
  }

  predicate NeedsScore(sort: string) { sort in {"quality_desc", "source_quality_desc", "perplexity_asc"} }

  /** The cursor's `AND (...)` clause. */
  predicate CursorClause(sort: string, c: Cursor, row: Row)
    requires NeedsScore(sort) ==> c.score.Some?
  {
    var later := row.validFrom < c.validFrom || (row.validFrom == c.validFrom && Ordering.LexLess(c.docId, row.docId));
    if sort == "oldest" then
      row.validFrom > c.validFrom || (row.validFrom == c.validFrom && Ordering.LexLess(c.docId, row.docId))
    else if sort == "quality_desc" then row.quality < c.score.value || (row.quality == c.score.value && later)
    else if sort == "source_quality_desc" then
      row.sourceQuality < c.score.value || (row.sourceQuality == c.score.value && later)
    else if sort == "perplexity_asc" then row.perplexity > c.score.value || (row.perplexity == c.score.value && later)
    else later
  }

  // ---- One page ------------------------------------------------------------------------------

  function BoundedSize(pageSize: int): (n: nat)
    ensures 1 <= n <= 100
  {
    if pageSize > 100 then 100 else if pageSize < 1 then 1 else pageSize
  }

  function NotAfter(sort: string): (Row, Row) -> bool { (a: Row, b: Row) => !Before(sort, b, a) }

  function Take(rows: seq<Row>, n: nat): seq<Row> { if n < |rows| then rows[..n] else rows }

  /** `ORDER BY ... LIMIT size + 1`, of which the extra row only says that there is more. */
  function PageFrom(sort: string, selected: seq<Row>, total: nat, size: nat): Page
    requires 1 <= size
  {
    var fetched := Take(Ordering.Sort(NotAfter(sort), selected), size + 1);
    var items := Take(fetched, size);
    var more := |fetched| > size;
    Page(items, total, size, (total + size - 1) / size,
         if more && items != [] then Some(EncodeCursor(items[|items| - 1], sort)) else None, more)
  }

  /** `documents` over the rows matching the request's filters. */
  function Documents(sort: string, matching: seq<Row>, cursor: Option<Cursor>, pageSize: int): Response {
    var size := BoundedSize(pageSize);
    match cursor
    case None => Ok(PageFrom(sort, matching, |matching|, size))
    case Some(c) =>
      if c.sort != sort then SortMismatch
      else if NeedsScore(sort) && c.score.None? then MissingScore
      else
        var after := (row: Row) => (NeedsScore(sort) ==> c.score.Some?) && CursorClause(sort, c, row);
        Ok(PageFrom(sort, Ordering.Filter(after, matching), |matching|, size))
  }

  // ---- The cursor predicate ------------------------------------------------------------------

  /** The clause selects exactly the rows strictly after the page tail. */
  lemma CursorIsStrictlyAfter(sort: string, tail: Row, row: Row)
    ensures EncodeCursor(tail, sort).sort == sort
    ensures NeedsScore(sort) ==> EncodeCursor(tail, sort).score.Some?
    ensures CursorClause(sort, EncodeCursor(tail, sort), row) <==> Before(sort, tail, row)
  {
  }

  // ---- Orders are total on distinct keys -----------------------------------------------------

  /** No two matching rows tie in all the columns of the sort. */
  ghost predicate NoTies(sort: string, rows: seq<Row>) {
    forall i, j | 0 <= i < j < |rows| :: Before(sort, rows[i], rows[j]) || Before(sort, rows[j], rows[i])
  }

  lemma BeforeIsStrict(sort: string, a: Row, b: Row, c: Row)
    ensures !Before(sort, a, a)
    ensures Before(sort, a, b) ==> !Before(sort, b, a)
    ensures Before(sort, a, b) && Before(sort, b, c) ==> Before(sort, a, c)
  {
    Ordering.LexTrichotomy(a.docId, b.docId);
    Ordering.LexTrichotomy(b.docId, c.docId);
    if Ordering.LexLess(a.docId, b.docId) && Ordering.LexLess(b.docId, c.docId) {
      Ordering.LexTransitive(a.docId, b.docId, c.docId);
    }
  }

  /** Rows that tie in the sort columns compare alike. */
  lemma NotAfterTransitive(sort: string, a: Row, b: Row, c: Row)
    requires !Before(sort, b, a) && !Before(sort, c, b)
    ensures !Before(sort, c, a)
  {
    Ordering.LexTrichotomy(a.docId, b.docId);
    Ordering.LexTrichotomy(b.docId, c.docId);
    Ordering.LexTrichotomy(a.docId, c.docId);
    if Ordering.LexLess(c.docId, a.docId) && Ordering.LexLess(a.docId, b.docId) {
      Ordering.LexTransitive(c.docId, a.docId, b.docId);
    }
    if Ordering.LexLess(b.docId, c.docId) && Ordering.LexLess(c.docId, a.docId) {
      Ordering.LexTransitive(b.docId, c.docId, a.docId);
    }
  }

  lemma NotAfterIsTotal(sort: string, rows: seq<Row>)
    ensures Ordering.TotalPreorderOn(NotAfter(sort), rows)
  {
    forall a, b | a in rows && b in rows ensures NotAfter(sort)(a, b) || NotAfter(sort)(b, a) {
      BeforeIsStrict(sort, a, b, a);
    }
    forall a, b, c | a in rows && b in rows && c in rows && NotAfter(sort)(a, b) && NotAfter(sort)(b, c)
      ensures NotAfter(sort)(a, c)
    {
      NotAfterTransitive(sort, a, b, c);
    }
  }

  ghost predicate StrictlySorted(sort: string, rows: seq<Row>) {
    forall i, j | 0 <= i < j < |rows| :: Before(sort, rows[i], rows[j])
  }

  lemma {:induction false} InsertStrict(sort: string, x: Row, rows: seq<Row>)
    requires StrictlySorted(sort, rows)
    requires forall r | r in rows :: Before(sort, x, r) || Before(sort, r, x)
    ensures StrictlySorted(sort, Ordering.Insert(NotAfter(sort), x, rows))
  {
    var le := NotAfter(sort);
    if rows == [] {
    } else if le(x, rows[0]) {
      assert rows[0] in rows;
      forall j | 0 <= j < |rows| ensures Before(sort, x, rows[j]) {
        BeforeIsStrict(sort, x, rows[0], rows[j]);
      }
    } else {
      InsertStrict(sort, x, rows[1..]);
      var rest := Ordering.Insert(le, x, rows[1..]);
      Ordering.InsertMultiset(le, x, rows[1..]);
      forall j | 0 <= j < |rest| ensures Before(sort, rows[0], rest[j]) {
        assert multiset([x] + rows[1..]) == multiset{x} + multiset(rows[1..]);
        Ordering.SameElements(rest, [x] + rows[1..], rest[j]);
        if rest[j] != x {
          assert rest[j] in rows[1..];
        }
      }
    }
  }

  lemma {:induction false} SortStrict(sort: string, rows: seq<Row>)
    requires NoTies(sort, rows)
    ensures StrictlySorted(sort, Ordering.Sort(NotAfter(sort), rows))
  {
    if rows != [] {
      var rest := Ordering.Sort(NotAfter(sort), rows[1..]);
      SortStrict(sort, rows[1..]);
      Ordering.SortMultiset(NotAfter(sort), rows[1..]);
      forall r | r in rest ensures Before(sort, rows[0], r) || Before(sort, r, rows[0]) {
        Ordering.SameElements(rest, rows[1..], r);
        var i :| 0 <= i < |rows[1..]| && rows[1..][i] == r;
        assert rows[i + 1] == r;
      }
      InsertStrict(sort, rows[0], rest);
    }
  }

  // ---- Following the cursors -----------------------------------------------------------------

  lemma {:induction false} FilterAll(p: Row -> bool, rows: seq<Row>)
    requires forall r | r in rows :: p(r)
    ensures Ordering.Filter(p, rows) == rows
  {
    if rows != [] {
      FilterAll(p, rows[1..]);
    }
  }

  lemma {:induction false} FilterSuffix(p: Row -> bool, rows: seq<Row>, n: nat)
    requires n <= |rows| && forall i | 0 <= i < |rows| :: p(rows[i]) <==> n <= i
    ensures Ordering.Filter(p, rows) == rows[n..]
  {
    if n == 0 {
      FilterAll(p, rows);
    } else {
      FilterSuffix(p, rows[1..], n - 1);
    }
  }

  lemma {:induction false} FilterLength(p: Row -> bool, rows: seq<Row>, n: nat)
    requires n <= |rows| && forall i | 0 <= i < n :: !p(rows[i])
    ensures |Ordering.Filter(p, rows)| <= |rows| - n
  {
    if rows != [] {
      FilterLength(p, rows[1..], if n == 0 then 0 else n - 1);
    }
  }

  lemma BeforeNotAfter(sort: string, a: Row, b: Row, c: Row)
    requires Before(sort, a, b) && !Before(sort, c, b)
    ensures Before(sort, a, c)
  {
    hide Before;
    if !Before(sort, a, c) {
      NotAfterTransitive(sort, b, c, a);
    }
  }

  lemma OrderedSorted(sort: string, matching: seq<Row>)
    ensures |Ordered(sort, matching)| == |matching| && multiset(Ordered(sort, matching)) == multiset(matching)
    ensures forall i, j | 0 <= i < j < |matching| :: !Before(sort, Ordered(sort, matching)[j], Ordered(sort, matching)[i])
  {
    NotAfterIsTotal(sort, matching);
    Ordering.SortSorted(NotAfter(sort), matching);
    Ordering.SortMultiset(NotAfter(sort), matching);
    hide Before;
    var all := Ordered(sort, matching);
    forall i, j | 0 <= i < j < |matching| ensures !Before(sort, all[j], all[i]) {
      assert NotAfter(sort)(all[i], all[j]);
    }
  }

  /** The whole ordered collection. */
  function Ordered(sort: string, matching: seq<Row>): seq<Row> { Ordering.Sort(NotAfter(sort), matching) }

  /** The cursor of a page that ended after `done` rows. */
  function CursorAt(sort: string, matching: seq<Row>, done: nat): Option<Cursor> {
    if 0 < done <= |Ordered(sort, matching)| then Some(EncodeCursor(Ordered(sort, matching)[done - 1], sort)) else None
  }

  /** A page may end after `done` rows: no row beyond ties with the tail in all the columns of the sort. */
  predicate Boundary(sort: string, matching: seq<Row>, done: nat) {
    var all := Ordered(sort, matching);
    done == 0 || (done < |all| && Before(sort, all[done - 1], all[done]))
  }

  /** The rows a cursor selects, in order, are the rest of the ordered collection. */
  lemma CursorSelectsRest(sort: string, matching: seq<Row>, done: nat, after: Row -> bool)
    requires 0 < done < |matching| == |Ordered(sort, matching)| && Boundary(sort, matching, done)
    requires forall r :: after(r) <==> Before(sort, Ordered(sort, matching)[done - 1], r)
    ensures Ordered(sort, Ordering.Filter(after, matching)) == Ordered(sort, matching)[done..]
  {
    OrderedSorted(sort, matching);
    NotAfterIsTotal(sort, matching);
    Ordering.SortFilterCommute(after, NotAfter(sort), matching);
    hide Before;
    var all := Ordered(sort, matching);
    forall i | 0 <= i < |all| ensures after(all[i]) <==> done <= i {
      if done < i {
        BeforeNotAfter(sort, all[done - 1], all[done], all[i]);
      } else if i == done - 1 {
        BeforeIsStrict(sort, all[i], all[i], all[i]);
      }
    }
    FilterSuffix(after, all, done);
  }

  function EndOf(matching: seq<Row>, done: nat, size: nat): nat {
    if done + size < |matching| then done + size else |matching|
  }

  /** The page that starts after `done` rows of the ordered collection. */
  function Slice(sort: string, matching: seq<Row>, done: nat, size: nat): Page
    requires 1 <= size && done <= |matching| == |Ordered(sort, matching)|
  {
    var end := EndOf(matching, done, size);
    Page(Ordered(sort, matching)[done..end], |matching|, size, (|matching| + size - 1) / size,
         if end < |matching| then CursorAt(sort, matching, end) else None, end < |matching|)
  }

  lemma PageFromRest(sort: string, matching: seq<Row>, selected: seq<Row>, done: nat, size: nat)
    requires 1 <= size && done <= |matching| == |Ordered(sort, matching)| && (done < |matching| || done == 0)
    requires Ordered(sort, selected) == Ordered(sort, matching)[done..]
    ensures PageFrom(sort, selected, |matching|, size) == Slice(sort, matching, done, size)
  {
    hide NotAfter;
    var rest, end := Ordered(sort, matching)[done..], EndOf(matching, done, size);
    if done + size < |matching| {
      assert Take(rest, size + 1) == rest[..size + 1];
      assert rest[..size + 1][..size] == rest[..size] == Ordered(sort, matching)[done..end];
    } else {
      assert Take(rest, size + 1) == rest == Ordered(sort, matching)[done..end];
    }
  }

  /** The page behind a cursor is the next slice of the ordered collection. */
  lemma PageIsSlice(sort: string, matching: seq<Row>, done: nat, pageSize: int)
    requires Boundary(sort, matching, done)
    ensures |Ordered(sort, matching)| == |matching|
    ensures Documents(sort, matching, CursorAt(sort, matching, done), pageSize)
         == Ok(Slice(sort, matching, done, BoundedSize(pageSize)))
  {
    hide CursorClause, Before, PageFrom, Slice;
    var all := Ordered(sort, matching);
    Ordering.SortMultiset(NotAfter(sort), matching);
    if done == 0 {
      PageFromRest(sort, matching, matching, 0, BoundedSize(pageSize));
    } else {
      var c := EncodeCursor(all[done - 1], sort);
      var after := (row: Row) => (NeedsScore(sort) ==> c.score.Some?) && CursorClause(sort, c, row);
      CursorIsStrictlyAfter(sort, all[done - 1], all[done - 1]);
      forall r ensures after(r) <==> Before(sort, all[done - 1], r) {
        CursorIsStrictlyAfter(sort, all[done - 1], r);
      }
      CursorSelectsRest(sort, matching, done, after);
      PageFromRest(sort, matching, Ordering.Filter(after, matching), done, BoundedSize(pageSize));
    }
  }

  /** What a client collects that follows `next_cursor`, how many pages it reads, and whether it was stopped by the last page. */
  function Follow(sort: string, matching: seq<Row>, cursor: Option<Cursor>, pageSize: int, fuel: nat): (seq<Row>, nat, bool)
    decreases fuel
  {
    match Documents(sort, matching, cursor, pageSize)
    case Ok(page) =>
      if page.next.None? || fuel == 0 then (page.items, 1, page.next.None?)
      else
        var rest := Follow(sort, matching, page.next, pageSize, fuel - 1);
        (page.items + rest.0, 1 + rest.1, rest.2)
    case SortMismatch => ([], 0, false)
    case MissingScore => ([], 0, false)
  }

  lemma DivisionStep(x: nat, d: nat)
    requires 1 <= d <= x
    ensures x / d == (x - d) / d + 1
  {
    QuotientIsUnique(x, d, (x - d) / d + 1, (x - d) % d);
  }

  lemma QuotientIsUnique(x: nat, d: nat, q: nat, r: nat)
    requires 1 <= d && r < d && x == q * d + r
    ensures x / d == q
  {
    var k, m := x / d, x % d;
    assert k * d + m == x;
    assert (k - q) * d == r - m && (q - k) * d == m - r;
    if k > q {
      ProductGrows(k - q, d);
    } else if q > k {
      ProductGrows(q - k, d);
    }
  }

  lemma ProductGrows(k: nat, d: nat)
    requires 1 <= k
    ensures k * d >= d
  {
  }

  function PageCount(rows: nat, size: nat): nat
    requires 1 <= size
  {
    if rows == 0 then 1 else (rows + size - 1) / size
  }

  /** The position after `k` full pages. */
  function PageEnd(k: nat, size: nat): nat { k * size }

  /** From page `k` on, no tie class straddles the end of a page. */
  ghost predicate NoStraddle(sort: string, matching: seq<Row>, k: nat, size: nat) {
    forall j: nat | k < j && PageEnd(j, size) < |matching| :: Boundary(sort, matching, PageEnd(j, size))
  }

  /** What following the cursors from page `k` yields: the rest if no tie straddles a page end, and fewer rows otherwise. */
  ghost predicate Followed(sort: string, matching: seq<Row>, k: nat, size: nat, r: (seq<Row>, nat, bool))
    requires 1 <= size && PageEnd(k, size) <= |matching| == |Ordered(sort, matching)|
  {
    if NoStraddle(sort, matching, k, size)
    then r == (Ordered(sort, matching)[PageEnd(k, size)..], PageCount(|matching| - PageEnd(k, size), size), true)
    else |r.0| < |matching| - PageEnd(k, size)
  }

  /** One page of the walk. */
  lemma FollowOnce(sort: string, matching: seq<Row>, done: nat, pageSize: int, fuel: nat)
    requires Boundary(sort, matching, done)
    ensures |Ordered(sort, matching)| == |matching| && done <= |matching|
    ensures var end := EndOf(matching, done, BoundedSize(pageSize));
            var items := Ordered(sort, matching)[done..end];
            Follow(sort, matching, CursorAt(sort, matching, done), pageSize, fuel)
            == if end == |matching| || fuel == 0 then (items, 1, end == |matching|)
               else
                 var rest := Follow(sort, matching, CursorAt(sort, matching, end), pageSize, fuel - 1);
                 (items + rest.0, 1 + rest.1, rest.2)
  {
    PageIsSlice(sort, matching, done, pageSize);
    hide Documents, Ordered, Before;
  }

  lemma {:induction false} FollowFrom(sort: string, matching: seq<Row>, k: nat, pageSize: int, fuel: nat)
    requires Boundary(sort, matching, PageEnd(k, BoundedSize(pageSize))) && fuel >= |matching| - PageEnd(k, BoundedSize(pageSize))
    ensures |Ordered(sort, matching)| == |matching| && PageEnd(k, BoundedSize(pageSize)) <= |matching|
    ensures var cursor := CursorAt(sort, matching, PageEnd(k, BoundedSize(pageSize)));
            Followed(sort, matching, k, BoundedSize(pageSize), Follow(sort, matching, cursor, pageSize, fuel))
    decreases fuel
  {
    hide Follow, Ordered, Before, Boundary, PageEnd, PageCount, NoStraddle, BoundedSize, CursorAt;
    var size := BoundedSize(pageSize);
    var done := PageEnd(k, size);
    FollowOnce(sort, matching, done, pageSize, fuel);
    NextPageEnd(k, size);
    NoStraddleNext(sort, matching, k, size);
    var all, end := Ordered(sort, matching), EndOf(matching, done, size);
    if end == |matching| {
      assert all[done..end] == all[done..];
      OnePage(|matching| - done, size);
    } else if Boundary(sort, matching, end) {
      FollowFrom(sort, matching, k + 1, pageSize, fuel - 1);
      assert all[done..end] + all[end..] == all[done..];
      OneMorePage(|matching| - done, size);
    } else {
      StraddleLosesRows(sort, matching, end, pageSize, fuel - 1);
    }
  }

  lemma NextPageEnd(k: nat, size: nat)
    ensures PageEnd(k + 1, size) == PageEnd(k, size) + size
  {
  }

  lemma OneMorePage(rows: nat, size: nat)
    requires 1 <= size < rows
    ensures PageCount(rows, size) == PageCount(rows - size, size) + 1
  {
    DivisionStep(rows + size - 1, size);
  }

  /** What page `k` decides about the page ends from it on. */
  lemma NoStraddleNext(sort: string, matching: seq<Row>, k: nat, size: nat)
    ensures PageEnd(k + 1, size) >= |matching| ==> NoStraddle(sort, matching, k, size)
    ensures PageEnd(k + 1, size) < |matching| ==>
              (NoStraddle(sort, matching, k, size)
               <==> Boundary(sort, matching, PageEnd(k + 1, size)) && NoStraddle(sort, matching, k + 1, size))
  {
    hide Boundary;
    if PageEnd(k + 1, size) >= |matching| {
      forall j: nat | k < j ensures PageEnd(j, size) >= |matching| {
        LaterPage(k + 1, j, size);
      }
    } else if NoStraddle(sort, matching, k + 1, size) && Boundary(sort, matching, PageEnd(k + 1, size)) {
      hide PageEnd;
      forall j: nat | k < j && PageEnd(j, size) < |matching| ensures Boundary(sort, matching, PageEnd(j, size)) {
        assert j == k + 1 || k + 1 < j;
      }
    }
  }

  lemma LaterPage(i: nat, j: nat, size: nat)
    requires i <= j
    ensures PageEnd(i, size) <= PageEnd(j, size)
  {
    assert (j - i) * size >= 0;
  }

  lemma OnePage(rows: nat, size: nat)
    requires 1 <= size && rows <= size
    ensures PageCount(rows, size) == 1
  {
    if rows != 0 {
      DivisionStep(rows + size - 1, size);
      assert (rows - 1) / size == 0;
    }
  }

  // ---- Ties that straddle a page end ---------------------------------------------------------

  function Selected(sort: string, matching: seq<Row>, cursor: Option<Cursor>): seq<Row> {
    match cursor
    case None => matching
    case Some(c) =>
      Ordering.Filter((row: Row) => (NeedsScore(sort) ==> c.score.Some?) && CursorClause(sort, c, row), matching)
  }

  /** At most the rows beyond position `n` of the ordered rows pass a filter that the others fail. */
  lemma RowsBeyond(sort: string, rows: seq<Row>, n: nat, after: Row -> bool)
    requires |Ordered(sort, rows)| == |rows| && n <= |rows| && forall i | 0 <= i < n :: !after(Ordered(sort, rows)[i])
    ensures |Ordering.Filter(after, rows)| <= |rows| - n
  {
    NotAfterIsTotal(sort, rows);
    Ordering.SortFilterCommute(after, NotAfter(sort), rows);
    Ordering.SortMultiset(NotAfter(sort), Ordering.Filter(after, rows));
    FilterLength(after, Ordered(sort, rows), n);
  }

  lemma {:induction false} FilterNarrow(p: Row -> bool, q: Row -> bool, rows: seq<Row>)
    requires forall r | q(r) :: p(r)
    ensures Ordering.Filter(q, Ordering.Filter(p, rows)) == Ordering.Filter(q, rows)
  {
    if rows != [] {
      FilterNarrow(p, q, rows[1..]);
      var rest := Ordering.Filter(p, rows[1..]);
      assert ([rows[0]] + rest)[1..] == rest;
    }
  }

  lemma LaterStillPasses(sort: string, c: Cursor, a: Row, b: Row)
    requires (NeedsScore(sort) ==> c.score.Some?) && CursorClause(sort, c, a) && Before(sort, a, b)
    ensures CursorClause(sort, c, b)
  {
    if Ordering.LexLess(c.docId, a.docId) && Ordering.LexLess(a.docId, b.docId) {
      Ordering.LexTransitive(c.docId, a.docId, b.docId);
    }
  }

  /** The rows after the tail of a page of `n` rows are among the rows that the page did not show. */
  lemma NextSelected(sort: string, matching: seq<Row>, cursor: Option<Cursor>, n: nat)
    requires cursor.Some? ==> (NeedsScore(sort) ==> cursor.value.score.Some?)
    requires var selected := Selected(sort, matching, cursor); 0 < n <= |selected| == |Ordered(sort, selected)|
    ensures var selected := Selected(sort, matching, cursor);
            |Selected(sort, matching, Some(EncodeCursor(Ordered(sort, selected)[n - 1], sort)))| <= |selected| - n
  {
    var selected := Selected(sort, matching, cursor);
    OrderedSorted(sort, selected);
    var all := Ordered(sort, selected);
    var tail := all[n - 1];
    var c := EncodeCursor(tail, sort);
    var after := (row: Row) => (NeedsScore(sort) ==> c.score.Some?) && CursorClause(sort, c, row);
    forall r ensures after(r) <==> Before(sort, tail, r) {
      CursorIsStrictlyAfter(sort, tail, r);
    }
    hide CursorClause, Before;
    BeforeIsStrict(sort, tail, tail, tail);
    RowsBeyond(sort, selected, n, after);
    if cursor.Some? {
      var before := (row: Row) => (NeedsScore(sort) ==> cursor.value.score.Some?) && CursorClause(sort, cursor.value, row);
      Ordering.SameElements(all, selected, tail);
      assert tail in all;
      Ordering.FilterElements(before, matching, tail);
      forall r | after(r) ensures before(r) {
        LaterStillPasses(sort, cursor.value, tail, r);
      }
      FilterNarrow(before, after, matching);
    }
  }

  /** Following a cursor never yields more rows than the cursor selects. */
  lemma {:induction false} FollowBounded(sort: string, matching: seq<Row>, cursor: Option<Cursor>, pageSize: int, fuel: nat)
    requires cursor.Some? ==> cursor.value.sort == sort && (NeedsScore(sort) ==> cursor.value.score.Some?)
    ensures |Follow(sort, matching, cursor, pageSize, fuel).0| <= |Selected(sort, matching, cursor)|
    decreases fuel
  {
    hide CursorClause, Before;
    var selected, size := Selected(sort, matching, cursor), BoundedSize(pageSize);
    var page := PageFrom(sort, selected, |matching|, size);
    assert Documents(sort, matching, cursor, pageSize) == Ok(page);
    PageTail(sort, selected, |matching|, size);
    hide PageFrom, Ordered, Selected, Documents;
    if page.next.Some? && fuel != 0 {
      CursorIsStrictlyAfter(sort, Ordered(sort, selected)[size - 1], Ordered(sort, selected)[size - 1]);
      NextSelected(sort, matching, cursor, size);
      FollowBounded(sort, matching, page.next, pageSize, fuel - 1);
    }
  }

  /** A page with a successor is full, and the cursor to the successor stands at its tail. */
  lemma PageTail(sort: string, selected: seq<Row>, total: nat, size: nat)
    requires 1 <= size
    ensures var page, all := PageFrom(sort, selected, total, size), Ordered(sort, selected);
            && |page.items| <= |selected| == |all|
            && (page.next.Some? ==> size <= |all| && |page.items| == size && page.next == Some(EncodeCursor(all[size - 1], sort)))
  {
    Ordering.SortMultiset(NotAfter(sort), selected);
  }

  /** A page that ends inside a tie class loses the rest of that class. */
  lemma StraddleLosesRows(sort: string, matching: seq<Row>, end: nat, pageSize: int, fuel: nat)
    requires 0 < end < |matching| == |Ordered(sort, matching)| && !Boundary(sort, matching, end)
    ensures |Follow(sort, matching, CursorAt(sort, matching, end), pageSize, fuel).0| < |matching| - end
  {
    var all := Ordered(sort, matching);
    var tail := all[end - 1];
    var c := EncodeCursor(tail, sort);
    var after := (row: Row) => (NeedsScore(sort) ==> c.score.Some?) && CursorClause(sort, c, row);
    forall r ensures after(r) <==> Before(sort, tail, r) {
      CursorIsStrictlyAfter(sort, tail, r);
    }
    OrderedSorted(sort, matching);
    hide CursorClause, Before;
    BeforeIsStrict(sort, tail, tail, tail);
    CursorIsStrictlyAfter(sort, tail, tail);
    RowsBeyond(sort, matching, end + 1, after);
    FollowBounded(sort, matching, Some(c), pageSize, fuel);
  }

  // ---- What a request asks for ----------------------------------------------------------------

  /** A page size from 1 to 100 is kept; smaller ones are raised to 1 and larger ones cut to 100. */
  lemma SizeMeans(pageSize: int)
    ensures 1 <= pageSize <= 100 ==> BoundedSize(pageSize) == pageSize
    ensures pageSize < 1 ==> BoundedSize(pageSize) == 1
    ensures pageSize > 100 ==> BoundedSize(pageSize) == 100
  {
  }

  /**
   The column each sort is named after falls or rises along the ordered rows; a tied score goes to the newer row, and
   what still ties to the lesser document identifier.
   */
  lemma OrderMeans(sort: string, matching: seq<Row>, i: nat, j: nat)
    requires i < j < |matching| == |Ordered(sort, matching)|
    ensures var a, b := Ordered(sort, matching)[i], Ordered(sort, matching)[j];
            && (sort == "oldest" ==> a.validFrom <= b.validFrom)
            && (sort == "quality_desc" ==> a.quality >= b.quality && (a.quality == b.quality ==> a.validFrom >= b.validFrom))
            && (sort == "source_quality_desc" ==>
                  a.sourceQuality >= b.sourceQuality && (a.sourceQuality == b.sourceQuality ==> a.validFrom >= b.validFrom))
            && (sort == "perplexity_asc" ==> a.perplexity <= b.perplexity && (a.perplexity == b.perplexity ==> a.validFrom >= b.validFrom))
            && (sort !in {"oldest", "quality_desc", "source_quality_desc", "perplexity_asc"} ==> a.validFrom >= b.validFrom)
    ensures var a, b := Ordered(sort, matching)[i], Ordered(sort, matching)[j];
            (a.quality, a.sourceQuality, a.perplexity, a.validFrom) == (b.quality, b.sourceQuality, b.perplexity, b.validFrom) ==>
              !Ordering.LexLess(b.docId, a.docId)
  {
    OrderedSorted(sort, matching);
    hide Ordered;
  }

  /** The announced number of pages is the number of pages walked; only for an empty collection it is 0, for the one empty page. */
  lemma PagesAnnounced(sort: string, matching: seq<Row>, pageSize: int, fuel: nat)
    requires NoStraddle(sort, matching, 0, BoundedSize(pageSize)) && fuel >= |matching|
    ensures var first := Documents(sort, matching, None, pageSize);
            && first.Ok? && first.page.total == |matching| && first.page.pageSize == BoundedSize(pageSize)
            && (matching == [] ==> first.page.pages == 0)
            && Follow(sort, matching, None, pageSize, fuel).1 == if matching == [] then 1 else first.page.pages
  {
    hide NoStraddle, Follow, Ordering.Sort, BoundedSize;
    FromFirstPage(sort, matching, pageSize, fuel);
    QuotientIsUnique(BoundedSize(pageSize) - 1, BoundedSize(pageSize), 0, BoundedSize(pageSize) - 1);
  }

  // ---- Following from the first page ---------------------------------------------------------

  /** Ordered rows without ties are strictly sorted, so that no page can end inside a tie class. */
  lemma NoTiesNoStraddle(sort: string, matching: seq<Row>, size: nat)
    requires NoTies(sort, matching)
    ensures NoStraddle(sort, matching, 0, size)
  {
    SortStrict(sort, matching);
    Ordering.SortMultiset(NotAfter(sort), matching);
  }

  /** What following from the first page yields. */
  lemma FromFirstPage(sort: string, matching: seq<Row>, pageSize: int, fuel: nat)
    requires fuel >= |matching|
    ensures multiset(Ordered(sort, matching)) == multiset(matching) && |Ordered(sort, matching)| == |matching|
    ensures var r, size := Follow(sort, matching, None, pageSize, fuel), BoundedSize(pageSize);
            if NoStraddle(sort, matching, 0, size) then r == (Ordered(sort, matching), PageCount(|matching|, size), true)
            else |r.0| < |matching|
  {
    hide NoStraddle, Follow, PageCount, BoundedSize;
    Ordering.SortMultiset(NotAfter(sort), matching);
    assert PageEnd(0, BoundedSize(pageSize)) == 0;
    FollowFrom(sort, matching, 0, pageSize, fuel);
    assert Ordered(sort, matching)[0..] == Ordered(sort, matching);
  }

  /**
   For each sort order, over an unchanged relation without ties, following `next_cursor` from the first page
   yields every matching row exactly once, in order, in as many pages as announced, and then stops.
   */
  lemma FollowingVisitsEachRowOnce(sort: string, matching: seq<Row>, pageSize: int, fuel: nat)
    requires NoTies(sort, matching) && fuel >= |matching|
    ensures var r := Follow(sort, matching, None, pageSize, fuel);
            && multiset(r.0) == multiset(matching)
            && StrictlySorted(sort, r.0)
            && r.1 == PageCount(|matching|, BoundedSize(pageSize))
            && r.2
  {
    NoTiesNoStraddle(sort, matching, BoundedSize(pageSize));
    SortStrict(sort, matching);
    hide NoTies, NoStraddle, StrictlySorted, Follow, PageCount;
    FromFirstPage(sort, matching, pageSize, fuel);
  }

  /**
   The exact condition: following the cursors visits every matching row exactly once if and only if no tie
   class straddles a page end. Where one does, rows are lost.
   */
  lemma FollowingIsCompleteIff(sort: string, matching: seq<Row>, pageSize: int, fuel: nat)
    requires fuel >= |matching|
    ensures var r := Follow(sort, matching, None, pageSize, fuel).0;
            && (multiset(r) == multiset(matching) <==> NoStraddle(sort, matching, 0, BoundedSize(pageSize)))
            && (NoStraddle(sort, matching, 0, BoundedSize(pageSize)) <==> |r| == |matching|)
  {
    hide NoStraddle, Follow, PageCount, Ordered;
    FromFirstPage(sort, matching, pageSize, fuel);
    var r := Follow(sort, matching, None, pageSize, fuel).0;
    assert |multiset(r)| == |r| && |multiset(matching)| == |matching|;
  }

  /** With single-row pages that condition is the absence of ties. */
  lemma SingleRowPagesNeedNoTies(sort: string, matching: seq<Row>, pageSize: int, fuel: nat)
    requires BoundedSize(pageSize) == 1 && fuel >= |matching|
    ensures multiset(Follow(sort, matching, None, pageSize, fuel).0) == multiset(matching) <==> NoTies(sort, matching)
  {
    FollowingIsCompleteIff(sort, matching, pageSize, fuel);
    if NoTies(sort, matching) {
      NoTiesNoStraddle(sort, matching, 1);
    }
    if NoStraddle(sort, matching, 0, 1) {
      CutsEverywhere(sort, matching);
      TiesSurviveReordering(sort, Ordered(sort, matching), matching);
    }
  }

  /** Two rows that tie, one to a page: in every sort order the second one is never shown. */
  lemma TiedRowIsLost(sort: string, fuel: nat)
    requires fuel >= 2
    ensures var a, b := Row("doc", 0, 1.0, 1.0, 1.0, "first"), Row("doc", 0, 1.0, 1.0, 1.0, "second");
            && a != b && !NoStraddle(sort, [a, b], 0, 1)
            && |Follow(sort, [a, b], None, 1, fuel).0| < 2
  {
    var a, b := Row("doc", 0, 1.0, 1.0, 1.0, "first"), Row("doc", 0, 1.0, 1.0, 1.0, "second");
    assert "first"[0] != "second"[0];
    Ordering.LexTrichotomy("doc", "doc");
    var rows := [a, b];
    assert !Before(sort, rows[0], rows[1]) && !Before(sort, rows[1], rows[0]);
    hide Before, Follow;
    SingleRowPagesNeedNoTies(sort, rows, 1, fuel);
    FollowingIsCompleteIff(sort, rows, 1, fuel);
    FromFirstPage(sort, rows, 1, fuel);
  }

  lemma CutsEverywhere(sort: string, matching: seq<Row>)
    requires NoStraddle(sort, matching, 0, 1)
    ensures StrictlySorted(sort, Ordered(sort, matching)) && multiset(Ordered(sort, matching)) == multiset(matching)
  {
    OrderedSorted(sort, matching);
    hide Before;
    var all := Ordered(sort, matching);
    forall i, j | 0 <= i < j < |all| ensures Before(sort, all[i], all[j]) {
      assert PageEnd(i + 1, 1) == i + 1 && Boundary(sort, matching, i + 1);
      if i + 1 < j {
        BeforeNotAfter(sort, all[i], all[i + 1], all[j]);
      }
    }
  }

  lemma TiesSurviveReordering(sort: string, a: seq<Row>, b: seq<Row>)
    requires multiset(a) == multiset(b) && StrictlySorted(sort, a)
    ensures NoTies(sort, b)
  {
    hide Before;
    forall i, j | 0 <= i < j < |b| ensures Before(sort, b[i], b[j]) || Before(sort, b[j], b[i]) {
      Ordering.SameElements(a, b, b[i]);
      Ordering.SameElements(a, b, b[j]);
      var k :| 0 <= k < |a| && a[k] == b[i];
      var l :| 0 <= l < |a| && a[l] == b[j];
      if k == l {
        Ordering.CountedTwice(b, i, j);
        StrictlyOnce(sort, a, b[i]);
      }
    }
  }

  lemma {:induction false} StrictlyOnce(sort: string, rows: seq<Row>, x: Row)
    requires StrictlySorted(sort, rows)
    ensures multiset(rows)[x] <= 1
  {
    if rows != [] {
      StrictlyOnce(sort, rows[1..], x);
      assert rows == [rows[0]] + rows[1..];
      BeforeIsStrict(sort, rows[0], rows[0], rows[0]);
      forall i | 0 <= i < |rows[1..]| ensures rows[1..][i] != rows[0] {
        assert Before(sort, rows[0], rows[i + 1]);
      }
    }
  }

  /** A cursor of another sort order is refused before any row is read. */
  lemma ForeignCursorRefused(sort: string, matching: seq<Row>, tail: Row, other: string, pageSize: int)
    ensures Documents(sort, matching, Some(EncodeCursor(tail, other)), pageSize).SortMismatch? <==> other != sort
    ensures !Documents(sort, matching, Some(EncodeCursor(tail, other)), pageSize).MissingScore?
  {
  }
}
