/**
 The keyset walk: Page in internal/store/ip_history.go and ListPaginated in
 internal/store/audit_log.go, and what a client that follows NextCursor reads.
 */
module Paging {
  import opened Options
  import opened Devices
  import opened Cursor
  import opened Int64
  import opened Sizes

  // ------------------------------------------------------------ the two tables

  datatype AuditRow = AuditRow(actor: string, event: string, createdAt: int)

  /** Empty strings and zero instants do not filter. */
  datatype AuditFilter = AuditFilter(actor: string, event: string, since: int, until: int) {
    predicate Admits(r: AuditRow) {
      && (actor != "" ==> r.actor == actor)
      && (event != "" ==> r.event == event)
      && (since != 0 ==> r.createdAt >= since)
      && (until != 0 ==> r.createdAt <= until)
    }
  }

  /** The keys of one device's history rows. */
  function HistoryKeys(table: map<nat, HistoryRow>, d: DeviceId): set<Key> {
    set id | id in table && table[id].device == d :: Key(table[id].observedAt, id)
  }

  function AuditKeys(table: map<nat, AuditRow>, f: AuditFilter): set<Key> {
    set id | id in table && f.Admits(table[id]) :: Key(table[id].createdAt, id)
  }

  // ---------------------------------------------------------------- one page

  /** a comes before b in (time, id) descending order. */
  predicate Newer(a: Key, b: Key) {
    a.time > b.time || (a.time == b.time && a.id > b.id)
  }

  ghost predicate Descending(ks: seq<Key>) {
    forall i, j :: 0 <= i < j < |ks| ==> Newer(ks[i], ks[j])
  }

  /** The page limit a caller's value stands for. */
  function Clamp(limit: int, whenUnset: nat): (n: nat)
    ensures 1 <= whenUnset <= 500 ==> 1 <= n <= 500
  {
    if limit <= 0 then whenUnset else if limit > 500 then 500 else limit
  }

  /** `next` is empty at the end of the stream. */
  datatype Page = Page(rows: seq<Key>, next: string)

  /** What a query from this cursor ranges over. */
  ghost function Below(matching: set<Key>, cursor: string): set<Key>
    requires cursor != "" ==> Decode(cursor).Some?
  {
    if cursor == "" then matching else set k | k in matching && Newer(Decode(cursor).value, k)
  }

  /** The `limit` newest of `below`, newest first. */
  ghost predicate NewestFirst(below: set<Key>, limit: nat, rows: seq<Key>) {
    && Descending(rows)
    && (forall k <- rows :: k in below)
    && |rows| == (if |below| < limit then |below| else limit)
    && (forall k, r :: k in below && k !in rows && r in rows ==> Newer(r, k))
  }

  ghost predicate IsPage(matching: set<Key>, cursor: string, limit: nat, p: Page) {
    && (cursor != "" ==> Decode(cursor).Some?)
    && NewestFirst(Below(matching, cursor), limit, p.rows)
    && p.next == if |p.rows| == limit && limit > 0 then Encode(p.rows[limit - 1]) else ""
  }

  /** ORDER BY time DESC, id DESC LIMIT n, scanned row by row. */
  method Select(below: set<Key>, limit: nat) returns (rows: seq<Key>)
    ensures NewestFirst(below, limit, rows)
  {
    rows := [];
    var left := below;
    while |rows| < limit && left != {}
      invariant |rows| <= limit && left <= below && |rows| + |left| == |below|
      invariant forall k <- below :: k in left || k in rows
      invariant forall k <- rows :: k in below && k !in left
      invariant Descending(rows) && forall k, r :: k in left && r in rows ==> Newer(r, k)
      decreases left
    {
      var top := Newest(left);
      rows, left := rows + [top], left - {top};
    }
  }

  method Newest(ks: set<Key>) returns (top: Key)
    requires ks != {}
    ensures top in ks && forall k <- ks :: k == top || Newer(top, k)
  {
    top :| top in ks;
    var rest := ks - {top};
    while rest != {}
      invariant rest <= ks && top in ks && top !in rest
      invariant forall k <- ks :: k in rest || k == top || Newer(top, k)
      decreases rest
    {
      var k :| k in rest;
      rest := rest - {k};
      if Newer(k, top) { top := k; }
    }
  }

  /** A page of a query result, with the cursor of the next one. */
  method PageFrom(matching: set<Key>, cursor: string, limit: nat) returns (r: Option<Page>)
    requires limit > 0
    ensures r.None? <==> cursor != "" && Decode(cursor).None?
    ensures r.Some? ==> IsPage(matching, cursor, limit, r.value)
  {
    var below := matching;
    if cursor != "" {
      var after := Decode(cursor);
      if after.None? { return None; }
      below := set k | k in matching && Newer(after.value, k);
    }
    var rows := Select(below, limit);
    var next := "";
    if |rows| == limit { next := Encode(rows[|rows| - 1]); }
    return Some(Page(rows, next));
  }

  /** IPHistoryRepo.Page. */
  method HistoryPage(table: map<nat, HistoryRow>, d: DeviceId, cursor: string, limit: int) returns (r: Option<Page>)
    ensures r.None? <==> cursor != "" && Decode(cursor).None?
    ensures r.Some? ==> IsPage(HistoryKeys(table, d), cursor, Clamp(limit, 50), r.value)
    ensures r.Some? ==> forall k <- r.value.rows ::
              exists id :: id in table && k == Key(table[id].observedAt, id) && table[id].device == d && IsAfter(k, cursor)
    ensures r.Some? ==> forall id <- table ::
              var k := Key(table[id].observedAt, id);
              table[id].device == d && IsAfter(k, cursor) && k !in r.value.rows ==>
                |r.value.rows| == if limit <= 0 then 50 else if limit <= 500 then limit else 500
  {
    var n := limit;
    if n <= 0 { n := 50; }
    if n > 500 { n := 500; }
    r := PageFrom(HistoryKeys(table, d), cursor, n);
    if r.Some? { PageShowsNewest(HistoryKeys(table, d), cursor, n, r.value); }
  }

  /** What a filter asks of a row, field by field. */
  ghost predicate Passes(f: AuditFilter, r: AuditRow) {
    f.actor in {"", r.actor} && f.event in {"", r.event} && (f.since == 0 || r.createdAt >= f.since) && (f.until == 0 || r.createdAt <= f.until)
  }

  /** AuditLogRepo.ListPaginated. */
  method AuditPage(table: map<nat, AuditRow>, f: AuditFilter, cursor: string, limit: int) returns (r: Option<Page>)
    ensures r.None? <==> cursor != "" && Decode(cursor).None?
    ensures r.Some? ==> IsPage(AuditKeys(table, f), cursor, Clamp(limit, 100), r.value)
    ensures r.Some? ==> forall k <- r.value.rows ::
              exists id :: id in table && k == Key(table[id].createdAt, id) && Passes(f, table[id]) && IsAfter(k, cursor)
    ensures r.Some? ==> forall id <- table ::
              var k := Key(table[id].createdAt, id);
              Passes(f, table[id]) && IsAfter(k, cursor) && k !in r.value.rows ==>
                |r.value.rows| == if limit <= 0 then 100 else if limit <= 500 then limit else 500
  {
    var n := limit;
    if n <= 0 { n := 100; }
    if n > 500 { n := 500; }
    r := PageFrom(AuditKeys(table, f), cursor, n);
    if r.Some? { PageShowsNewest(AuditKeys(table, f), cursor, n, r.value); }
  }

  /** Every key comes after the empty cursor; after another, the keys of an earlier time,
      or of the same time and a smaller id. */
  ghost predicate IsAfter(k: Key, cursor: string)
    requires cursor != "" ==> Decode(cursor).Some?
  {
    cursor == "" || k.time < Decode(cursor).value.time || (k.time == Decode(cursor).value.time && k.id < Decode(cursor).value.id)
  }

  /** Rows in the order of a page: by time and then by id, both falling; what is left off
      comes later still. */
  lemma NewestComeFirst(below: set<Key>, limit: nat, rows: seq<Key>)
    requires NewestFirst(below, limit, rows)
    ensures forall i, j :: 0 <= i < j < |rows| ==>
              rows[i].time > rows[j].time || (rows[i].time == rows[j].time && rows[i].id > rows[j].id)
    ensures forall k, r :: k in below && k !in rows && r in rows ==>
              |rows| == limit && (k.time < r.time || (k.time == r.time && k.id < r.id))
  {
    forall k, r | k in below && k !in rows && r in rows ensures |rows| == limit && Newer(r, k) {
      RowsMissingOne(below, rows, k);
    }
  }

  lemma BehindCursor(matching: set<Key>, cursor: string, k: Key)
    requires cursor != "" ==> Decode(cursor).Some?
    ensures k in Below(matching, cursor) <==> k in matching && IsAfter(k, cursor)
  {
  }

  /** What a page shows: matching rows after the cursor, by time and then by id, both
      falling; a matching row after the cursor that it leaves off comes later still. */
  lemma PageShowsNewest(matching: set<Key>, cursor: string, limit: nat, p: Page)
    requires IsPage(matching, cursor, limit, p)
    ensures forall i, j :: 0 <= i < j < |p.rows| ==>
              p.rows[i].time > p.rows[j].time || (p.rows[i].time == p.rows[j].time && p.rows[i].id > p.rows[j].id)
    ensures forall r <- p.rows :: r in matching && IsAfter(r, cursor)
    ensures forall k, r :: k in matching && IsAfter(k, cursor) && k !in p.rows && r in p.rows ==>
              |p.rows| == limit && (k.time < r.time || (k.time == r.time && k.id < r.id))
    ensures forall k <- matching :: IsAfter(k, cursor) && k !in p.rows ==> |p.rows| == limit
  {
    var below := Below(matching, cursor);
    NewestComeFirst(below, limit, p.rows);
    forall k ensures k in below <==> k in matching && IsAfter(k, cursor) { BehindCursor(matching, cursor, k); }
    forall k <- matching | IsAfter(k, cursor) && k !in p.rows ensures |p.rows| == limit { RowsMissingOne(below, p.rows, k); }
  }

  /** A page is determined by the rows, the cursor and the limit. */
  lemma PageIsDetermined(matching: set<Key>, cursor: string, limit: nat, p: Page, q: Page)
    requires IsPage(matching, cursor, limit, p) && IsPage(matching, cursor, limit, q)
    ensures p == q
  {
    SelectionIsDetermined(Below(matching, cursor), limit, p.rows, q.rows, |p.rows|);
    assert p.rows[..|p.rows|] == p.rows && q.rows[..|q.rows|] == q.rows;
  }

  lemma {:induction false} SelectionIsDetermined(below: set<Key>, limit: nat, a: seq<Key>, b: seq<Key>, n: nat)
    requires NewestFirst(below, limit, a) && NewestFirst(below, limit, b) && n <= |a|
    ensures |a| == |b| && a[..n] == b[..n]
  {
    if n > 0 {
      SelectionIsDetermined(below, limit, a, b, n - 1);
      ComesFirst(below, limit, a, b, n - 1);
      ComesFirst(below, limit, b, a, n - 1);
      assert a[..n] == a[..n - 1] + [a[n - 1]] && b[..n] == b[..n - 1] + [b[n - 1]];
    }
  }

  /** After a common prefix, a's next row is not older than b's. */
  lemma ComesFirst(below: set<Key>, limit: nat, a: seq<Key>, b: seq<Key>, n: nat)
    requires NewestFirst(below, limit, a) && NewestFirst(below, limit, b)
    requires n < |a| && n < |b| && a[..n] == b[..n]
    ensures a[n] == b[n] || Newer(a[n], b[n])
  {
    forall j | 0 <= j < n ensures a[j] != b[n] {
      assert a[..n][j] == b[..n][j];
      assert Newer(b[j], b[n]);
    }
    assert b[n] in b && a[n] in a;
    if b[n] in a {
      var i :| 0 <= i < |a| && a[i] == b[n];
    }
  }

  // ------------------------------------------------- reading on from the last row

  /** The rows behind the last one read, or all of them at the start. */
  ghost function Behind(matching: set<Key>, read: seq<Key>): set<Key> {
    if read == [] then matching else set k | k in matching && Newer(read[|read| - 1], k)
  }

  function Flat(lists: seq<seq<Key>>): seq<Key> {
    if lists == [] then [] else Flat(lists[..|lists| - 1]) + lists[|lists| - 1]
  }

  /** Lists of at most `limit` rows, each read behind the last, from a table that may
      change in between; only a full list is followed by another. */
  ghost predicate ReadsOn(tables: seq<set<Key>>, limit: nat, lists: seq<seq<Key>>)
    decreases |lists|
  {
    && |tables| == |lists|
    && (lists != [] ==>
          var n := |lists| - 1;
          && ReadsOn(tables[..n], limit, lists[..n])
          && (n > 0 ==> |lists[n - 1]| == limit)
          && NewestFirst(Behind(tables[n], Flat(lists[..n])), limit, lists[n]))
  }

  lemma DescendingConcat(before: seq<Key>, rows: seq<Key>)
    requires Descending(before) && Descending(rows)
    requires before != [] ==> forall k <- rows :: Newer(before[|before| - 1], k)
    ensures Descending(before + rows)
  {
    forall i, j | 0 <= i < |before| && 0 <= j < |rows| ensures Newer(before[i], rows[j]) {
      assert rows[j] in rows;
    }
  }

  lemma {:induction false} ReadsDescend(tables: seq<set<Key>>, limit: nat, lists: seq<seq<Key>>)
    requires ReadsOn(tables, limit, lists)
    ensures Descending(Flat(lists))
    decreases |lists|
  {
    if lists != [] {
      var n := |lists| - 1;
      ReadsDescend(tables[..n], limit, lists[..n]);
      DescendingConcat(Flat(lists[..n]), lists[n]);
    }
  }

  /** A list of distinct members that misses one is shorter than the set. */
  lemma RowsMissingOne(below: set<Key>, rows: seq<Key>, k: Key)
    requires Descending(rows) && (forall r <- rows :: r in below) && k in below && k !in rows
    ensures |rows| < |below|
  {
    DistinctSize(rows);
    SubsetSize((set r | r in rows), below - {k});
  }

  lemma {:induction false} DistinctSize(rows: seq<Key>)
    requires Descending(rows)
    ensures |(set r | r in rows)| == |rows|
  {
    if rows != [] {
      var n := |rows| - 1;
      DistinctSize(rows[..n]);
      assert (set r | r in rows) == (set r | r in rows[..n]) + {rows[n]};
      assert rows[n] !in rows[..n];
    }
  }

  lemma LastListMissesNothing(table: set<Key>, limit: nat, read: seq<Key>, rows: seq<Key>, k: Key)
    requires limit > 0 && NewestFirst(Behind(table, read), limit, rows) && k in table
    requires read == [] || k in read || Newer(read[|read| - 1], k)
    ensures var all := read + rows; k in all || (|rows| == limit && Newer(all[|all| - 1], k))
  {
    if k !in read + rows {
      assert k in Behind(table, read) && k !in rows;
      RowsMissingOne(Behind(table, read), rows, k);
      assert rows[|rows| - 1] in rows;
    }
  }

  /** A row that stays in the table is read, or lies behind the last one read, and then
      the last list is full. */
  lemma {:induction false} ReadsMissNothing(tables: seq<set<Key>>, limit: nat, lists: seq<seq<Key>>, k: Key)
    requires limit > 0 && ReadsOn(tables, limit, lists) && lists != []
    requires forall i :: 0 <= i < |tables| ==> k in tables[i]
    ensures k in Flat(lists) || (|lists[|lists| - 1]| == limit && Newer(Flat(lists)[|Flat(lists)| - 1], k))
    decreases |lists|
  {
    var n := |lists| - 1;
    assert k in tables[n];
    if n > 0 {
      assert forall i :: 0 <= i < n ==> tables[..n][i] == tables[i];
      ReadsMissNothing(tables[..n], limit, lists[..n], k);
    }
    assert Flat(lists) == Flat(lists[..n]) + lists[n];
    LastListMissesNothing(tables[n], limit, Flat(lists[..n]), lists[n], k);
  }

  /** Rows of `first` stay, and any other row is newer than all of them. */
  ghost predicate OnlyNewerArrived(first: set<Key>, tables: seq<set<Key>>) {
    forall i :: 0 <= i < |tables| ==>
      first <= tables[i] && forall k, r :: k in tables[i] && k !in first && r in first ==> Newer(k, r)
  }

  lemma ArrivedIsNotBehind(first: set<Key>, later: set<Key>, last: Key, k: Key)
    requires last in first && k in later && Newer(last, k)
    requires forall k, r :: k in later && k !in first && r in first ==> Newer(k, r)
    ensures k in first
  {
  }

  /** While only newer rows arrive after the first read, none of them is read. */
  lemma {:induction false} ReadsStayInside(tables: seq<set<Key>>, limit: nat, lists: seq<seq<Key>>)
    requires limit > 0 && ReadsOn(tables, limit, lists) && lists != [] && OnlyNewerArrived(tables[0], tables)
    ensures forall k <- Flat(lists) :: k in tables[0]
    decreases |lists|
  {
    var n := |lists| - 1;
    if n > 0 {
      ReadsStayInside(tables[..n], limit, lists[..n]);
      var read := Flat(lists[..n]);
      assert read != [] && read[|read| - 1] in read;
      forall k <- lists[n] ensures k in tables[0] {
        ArrivedIsNotBehind(tables[0], tables[n], read[|read| - 1], k);
      }
    } else {
      assert Flat(lists[..0]) == [];
    }
  }

  lemma {:induction false} ReadCount(tables: seq<set<Key>>, limit: nat, lists: seq<seq<Key>>)
    requires ReadsOn(tables, limit, lists) && lists != []
    ensures |Flat(lists)| == (|lists| - 1) * limit + |lists[|lists| - 1]| && |lists[|lists| - 1]| <= limit
    decreases |lists|
  {
    var n := |lists| - 1;
    if n > 0 {
      ReadCount(tables[..n], limit, lists[..n]);
      assert n * limit == (n - 1) * limit + limit;
    }
  }

  /** Reading on while only newer rows arrive. */
  lemma ReadsAreComplete(tables: seq<set<Key>>, limit: nat, lists: seq<seq<Key>>)
    requires limit > 0 && ReadsOn(tables, limit, lists) && lists != [] && OnlyNewerArrived(tables[0], tables)
    ensures var read := set k | k in Flat(lists);
      && read <= tables[0] && |read| == |Flat(lists)|
      && (|lists[|lists| - 1]| < limit ==> read == tables[0])
  {
    ReadsDescend(tables, limit, lists);
    ReadsStayInside(tables, limit, lists);
    DistinctSize(Flat(lists));
    if |lists[|lists| - 1]| < limit {
      forall k | k in tables[0] ensures k in Flat(lists) {
        assert forall i :: 0 <= i < |tables| ==> k in tables[i];
        ReadsMissNothing(tables, limit, lists, k);
      }
    }
  }

  // ------------------------------------------------------------------ the walk

  /** A client that starts with the empty cursor and follows NextCursor. `tables`
      are the matching rows as each page was read. */
  ghost predicate IsWalk(tables: seq<set<Key>>, limit: nat, pages: seq<Page>)
    decreases |pages|
  {
    && |tables| == |pages|
    && (pages != [] ==>
          var n := |pages| - 1;
          && IsWalk(tables[..n], limit, pages[..n])
          && (n > 0 ==> pages[n - 1].next != "")
          && Int64Keys(tables[n])
          && IsPage(tables[n], if n == 0 then "" else pages[n - 1].next, limit, pages[n]))
  }

  ghost predicate Int64Keys(ks: set<Key>) {
    forall k <- ks :: IsInt64(k.time) && IsInt64(k.id)
  }

  /** The walk has reached a page that says there is no next one. */
  predicate Finished(pages: seq<Page>) {
    pages != [] && pages[|pages| - 1].next == ""
  }

  function Lists(pages: seq<Page>): seq<seq<Key>> {
    if pages == [] then [] else Lists(pages[..|pages| - 1]) + [pages[|pages| - 1].rows]
  }

  function Rows(pages: seq<Page>): seq<Key> { Flat(Lists(pages)) }

  /** A short page ends the walk, and a full one points at its last row. */
  lemma PageEnds(matching: set<Key>, cursor: string, limit: nat, p: Page)
    requires limit > 0 && Int64Keys(matching) && IsPage(matching, cursor, limit, p)
    ensures p.next == "" <==> |p.rows| < limit
    ensures p.next != "" ==> |p.rows| == limit && Decode(p.next) == Some(p.rows[limit - 1])
  {
    if |p.rows| == limit {
      assert p.rows[limit - 1] in p.rows;
      CursorRoundTrip(p.rows[limit - 1]);
    }
  }

  /** The cursor stands for the last row read, or for the start. */
  predicate PointsAt(cursor: string, read: seq<Key>) {
    if read == [] then cursor == "" else cursor != "" && Decode(cursor) == Some(read[|read| - 1])
  }

  lemma LastRowPoints(before: seq<Key>, rows: seq<Key>, cursor: string)
    requires rows != [] && cursor != "" && Decode(cursor) == Some(rows[|rows| - 1])
    ensures PointsAt(cursor, before + rows)
  {
  }

  lemma BelowIsBehind(matching: set<Key>, read: seq<Key>, cursor: string)
    requires PointsAt(cursor, read)
    ensures Below(matching, cursor) == Behind(matching, read)
  {
  }

  /** The cursor of the next page. */
  function NextOf(pages: seq<Page>): string {
    if pages == [] then "" else pages[|pages| - 1].next
  }

  lemma WalkSoFar(tables: seq<set<Key>>, limit: nat, pages: seq<Page>)
    requires IsWalk(tables, limit, pages) && pages != []
    ensures var n := |pages| - 1;
      && |tables| == |pages| && IsWalk(tables[..n], limit, pages[..n])
      && (n > 0 ==> NextOf(pages[..n]) != "")
      && Int64Keys(tables[n]) && IsPage(tables[n], NextOf(pages[..n]), limit, pages[n])
  {
  }

  /** A page at the cursor reads on behind what was read, and its own cursor points at
      the end of that. */
  lemma PageReadsOn(matching: set<Key>, read: seq<Key>, cursor: string, limit: nat, page: Page)
    requires limit > 0 && Int64Keys(matching) && IsPage(matching, cursor, limit, page) && PointsAt(cursor, read)
    ensures NewestFirst(Behind(matching, read), limit, page.rows)
    ensures page.next == "" <==> |page.rows| < limit
    ensures page.next != "" ==> PointsAt(page.next, read + page.rows)
  {
    BelowIsBehind(matching, read, cursor);
    PageEnds(matching, cursor, limit, page);
    if page.next != "" { LastRowPoints(read, page.rows, page.next); }
  }

  lemma ReadsOnOneMore(tables: seq<set<Key>>, limit: nat, pages: seq<Page>)
    requires pages != [] && |tables| == |pages|
    requires var n := |pages| - 1;
      && ReadsOn(tables[..n], limit, Lists(pages[..n])) && (n > 0 ==> |pages[n - 1].rows| == limit)
      && NewestFirst(Behind(tables[n], Rows(pages[..n])), limit, pages[n].rows)
    ensures ReadsOn(tables, limit, Lists(pages)) && Rows(pages) == Rows(pages[..|pages| - 1]) + pages[|pages| - 1].rows
  {
    var n, lists := |pages| - 1, Lists(pages);
    assert |Lists(pages[..n])| == n;
    assert lists[..n] == Lists(pages[..n]) && lists[n] == pages[n].rows;
    if n > 0 { assert lists[n - 1] == Lists(pages[..n])[n - 1] == pages[..n][n - 1].rows; }
  }

  /** Following cursors reads on from the last row. */
  lemma {:induction false} WalkReadsOn(tables: seq<set<Key>>, limit: nat, pages: seq<Page>)
    requires limit > 0 && IsWalk(tables, limit, pages)
    ensures ReadsOn(tables, limit, Lists(pages)) && |Lists(pages)| == |pages|
    ensures pages == [] || NextOf(pages) != "" ==> PointsAt(NextOf(pages), Rows(pages))
    ensures pages != [] ==> Lists(pages)[|pages| - 1] == pages[|pages| - 1].rows
    ensures pages != [] ==> (NextOf(pages) == "" <==> |pages[|pages| - 1].rows| < limit)
    decreases |pages|
  {
    if pages != [] {
      var n := |pages| - 1;
      WalkSoFar(tables, limit, pages);
      WalkReadsOn(tables[..n], limit, pages[..n]);
      assert n == 0 ==> pages[..n] == [];
      PageReadsOn(tables[n], Rows(pages[..n]), NextOf(pages[..n]), limit, pages[n]);
      if n > 0 { assert |pages[n - 1].rows| == limit by { PageIsShort(tables[..n], limit, pages[..n]); } }
      ReadsOnOneMore(tables, limit, pages);
    }
  }

  /** No page is longer than the limit. */
  lemma PageIsShort(tables: seq<set<Key>>, limit: nat, pages: seq<Page>)
    requires IsWalk(tables, limit, pages) && pages != []
    ensures |pages[|pages| - 1].rows| <= limit
  {
    WalkSoFar(tables, limit, pages);
  }

  /** Completeness. Whatever happens to the table between pages, a walk reads in
      descending order, no row twice, and a finished walk has read every row that
      stayed. */
  lemma WalkReadsWhatStays(tables: seq<set<Key>>, limit: nat, pages: seq<Page>)
    requires limit > 0 && IsWalk(tables, limit, pages)
    ensures Descending(Rows(pages))
    ensures Finished(pages) ==> forall k :: (forall i :: 0 <= i < |tables| ==> k in tables[i]) ==> k in Rows(pages)
  {
    WalkReadsOn(tables, limit, pages);
    ReadsDescend(tables, limit, Lists(pages));
    if Finished(pages) {
      forall k | forall i :: 0 <= i < |tables| ==> k in tables[i] ensures k in Rows(pages) {
        ReadsMissNothing(tables, limit, Lists(pages), k);
      }
    }
  }

  /** Over a whole walk, from page to page, times never increase, and ids fall while the
      time stays. */
  lemma WalkGoesBackInTime(tables: seq<set<Key>>, limit: nat, pages: seq<Page>, i: nat, j: nat)
    requires limit > 0 && IsWalk(tables, limit, pages) && i < j < |Rows(pages)|
    ensures Rows(pages)[j].time <= Rows(pages)[i].time
    ensures Rows(pages)[j].time == Rows(pages)[i].time ==> Rows(pages)[j].id < Rows(pages)[i].id
  {
    WalkReadsWhatStays(tables, limit, pages);
    assert Newer(Rows(pages)[i], Rows(pages)[j]);
  }

  /** While only newer rows arrive, a walk reads only rows that matched when it
      started, and a finished one has read them all. */
  lemma WalkIsComplete(tables: seq<set<Key>>, limit: nat, pages: seq<Page>)
    requires limit > 0 && IsWalk(tables, limit, pages) && pages != [] && OnlyNewerArrived(tables[0], tables)
    ensures (set k | k in Rows(pages)) <= tables[0]
    ensures Finished(pages) ==> (set k | k in Rows(pages)) == tables[0]
  {
    WalkReadsOn(tables, limit, pages);
    ReadsAreComplete(tables, limit, Lists(pages));
  }

  lemma FullPages(n: nat, limit: nat, last: nat)
    requires n > 0 && last <= limit
    ensures last < limit ==> (n - 1) * limit <= (n - 1) * limit + last < n * limit
    ensures last == limit ==> (n - 1) * limit + last == n * limit
  {
    assert n * limit == (n - 1) * limit + limit;
  }

  /** Such a walk does not go on for ever: unfinished, it has read |pages| * limit of
      those rows; finished, it took the least number of pages that leaves the last one
      short. */
  lemma WalkTerminates(tables: seq<set<Key>>, limit: nat, pages: seq<Page>)
    requires limit > 0 && IsWalk(tables, limit, pages) && pages != [] && OnlyNewerArrived(tables[0], tables)
    ensures Finished(pages) ==> (|pages| - 1) * limit <= |tables[0]| < |pages| * limit
    ensures !Finished(pages) ==> |pages| * limit <= |tables[0]|
  {
    var n, last := |pages|, |pages[|pages| - 1].rows|;
    assert |Rows(pages)| == (n - 1) * limit + last && last <= limit && (Finished(pages) <==> last < limit) by {
      WalkReadsOn(tables, limit, pages);
      ReadCount(tables, limit, Lists(pages));
    }
    assert |Rows(pages)| <= |tables[0]| && (Finished(pages) ==> |Rows(pages)| == |tables[0]|) by {
      WalkReadsOn(tables, limit, pages);
      ReadsAreComplete(tables, limit, Lists(pages));
      SubsetSize((set k | k in Rows(pages)), tables[0]);
    }
    FullPages(n, limit, last);
  }
}
