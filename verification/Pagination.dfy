/** The pages of the access log of a subscription. */
module Pagination {
  import opened Wrappers
  import opened Schema
  import TextOrder

  /** Empty strings mean that the criterion is not applied. */
  datatype Filter = Filter(subId: int, ip: string, client: string)

  /** A row of the result, with its id. */
  datatype Entry = Entry(id: int, log: Log)

  datatype LogPage = LogPage(logs: seq<Entry>, total: nat, page: int, pageSize: int, totalPages: nat)

  // ---- Selection ----

  function Fold(c: char): char {
    if 'a' <= c <= 'z' then (c as int - 32) as char else c
  }

  /** SQLite's LIKE: `%` and `_` are wildcards, ASCII letters match without regard to case. */
  predicate Like(pattern: string, text: string)
    decreases |pattern| + |text|
  {
    if pattern == [] then text == []
    else if pattern[0] == '%' then Like(pattern[1..], text) || (text != [] && Like(pattern, text[1..]))
    else text != [] && (pattern[0] == '_' || Fold(pattern[0]) == Fold(text[0])) && Like(pattern[1..], text[1..])
  }

  predicate Selected(f: Filter, log: Log) {
    && log.subId == f.subId
    && (f.ip != "" ==> Like("%" + f.ip + "%", log.clientIp))
    && (f.client != "" ==> log.clientName == f.client)
  }

  /** The two cases of an ASCII letter fold together, and nothing else does. */
  predicate SameLetter(c: char, d: char) {
    || c == d
    || ('a' <= c <= 'z' && 'A' <= d <= 'Z' && c as int - 'a' as int == d as int - 'A' as int)
    || ('A' <= c <= 'Z' && 'a' <= d <= 'z' && c as int - 'A' as int == d as int - 'a' as int)
  }

  lemma FoldIff(c: char, d: char)
    ensures Fold(c) == Fold(d) <==> SameLetter(c, d)
  {
  }

  predicate NoWildcard(s: string) { forall i :: 0 <= i < |s| ==> s[i] != '%' && s[i] != '_' }

  predicate StartsWith(text: string, part: string) {
    |part| <= |text| && forall i :: 0 <= i < |part| ==> SameLetter(part[i], text[i])
  }

  /** `part` occurs in the text, letters of either case being the same. */
  ghost predicate Occurs(part: string, text: string) {
    exists i :: 0 <= i <= |text| && StartsWith(text[i..], part)
  }

  lemma {:induction false} LikeAny(text: string)
    ensures Like("%", text)
  {
    assert "%"[1..] == "";
    if text != "" {
      LikeAny(text[1..]);
    }
  }

  lemma {:induction false} LikeStart(part: string, text: string)
    requires NoWildcard(part)
    ensures Like(part + "%", text) <==> StartsWith(text, part)
  {
    var p := part + "%";
    if part == "" {
      assert p == "%";
      LikeAny(text);
    } else {
      assert p[0] == part[0] && p[1..] == part[1..] + "%";
      if text != "" {
        FoldIff(part[0], text[0]);
        LikeStart(part[1..], text[1..]);
        assert StartsWith(text, part) <==> SameLetter(part[0], text[0]) && StartsWith(text[1..], part[1..]);
      }
    }
  }

  /** The address filter finds the addresses in which the given text occurs. */
  lemma {:induction false} LikeIsOccurs(part: string, text: string)
    requires NoWildcard(part)
    ensures Like("%" + part + "%", text) <==> Occurs(part, text)
    decreases |text|
  {
    var p := "%" + part + "%";
    assert p[0] == '%' && p[1..] == part + "%" && text[0..] == text;
    LikeStart(part, text);
    if text == "" {
      assert Occurs(part, text) ==> StartsWith(text, part);
    } else {
      LikeIsOccurs(part, text[1..]);
      if Occurs(part, text[1..]) {
        var i :| 0 <= i <= |text[1..]| && StartsWith(text[1..][i..], part);
        assert text[1..][i..] == text[i + 1..];
      }
      if Occurs(part, text) && !StartsWith(text, part) {
        var i :| 0 <= i <= |text| && StartsWith(text[i..], part);
        assert text[i..] == text[1..][i - 1..];
      }
    }
  }

  /** What the filters of the page select. */
  lemma SelectedIff(f: Filter, log: Log)
    requires NoWildcard(f.ip)
    ensures Selected(f, log) <==>
              log.subId == f.subId && Occurs(f.ip, log.clientIp) && (f.client == "" || f.client == log.clientName)
  {
    LikeIsOccurs(f.ip, log.clientIp);
    if f.ip == "" {
      assert StartsWith(log.clientIp[0..], f.ip);
    }
  }

  // ---- ORDER BY requested_at DESC, id DESC ----

  predicate Precedes(a: Entry, b: Entry) {
    TextOrder.Less(b.log.requestedAt, a.log.requestedAt) || (a.log.requestedAt == b.log.requestedAt && a.id > b.id)
  }

  predicate Sorted(s: seq<Entry>) {
    forall i, j :: 0 <= i < j < |s| ==> Precedes(s[i], s[j])
  }

  function Insert(e: Entry, s: seq<Entry>): seq<Entry> {
    if s == [] || Precedes(e, s[0]) then [e] + s else [s[0]] + Insert(e, s[1..])
  }

  /** The selected rows with ids below `n`, in order. */
  function Rows(logs: map<int, Log>, f: Filter, n: nat): seq<Entry> {
    if n == 0 then []
    else if n - 1 in logs && Selected(f, logs[n - 1]) then Insert(Entry(n - 1, logs[n - 1]), Rows(logs, f, n - 1))
    else Rows(logs, f, n - 1)
  }

  lemma PrecedesTransitive(a: Entry, b: Entry, c: Entry)
    requires Precedes(a, b) && Precedes(b, c)
    ensures Precedes(a, c)
  {
    if TextOrder.Less(c.log.requestedAt, b.log.requestedAt) && TextOrder.Less(b.log.requestedAt, a.log.requestedAt) {
      TextOrder.Transitive(c.log.requestedAt, b.log.requestedAt, a.log.requestedAt);
    }
  }

  lemma PrecedesTotal(a: Entry, b: Entry)
    requires a.id != b.id
    ensures Precedes(a, b) || Precedes(b, a)
  {
    TextOrder.Trichotomy(a.log.requestedAt, b.log.requestedAt);
  }

  lemma {:induction false} InsertMembers(e: Entry, s: seq<Entry>)
    ensures forall x :: x in Insert(e, s) <==> x == e || x in s
  {
    if s != [] && !Precedes(e, s[0]) {
      InsertMembers(e, s[1..]);
      assert s == [s[0]] + s[1..];
    }
  }

  lemma {:induction false} InsertSorted(e: Entry, s: seq<Entry>)
    requires Sorted(s) && forall x :: x in s ==> x.id != e.id
    ensures Sorted(Insert(e, s))
  {
    if s == [] {
    } else if Precedes(e, s[0]) {
      forall j | 0 <= j < |s| ensures Precedes(e, s[j]) {
        if j > 0 {
          PrecedesTransitive(e, s[0], s[j]);
        }
      }
    } else {
      InsertSorted(e, s[1..]);
      InsertMembers(e, s[1..]);
      PrecedesTotal(e, s[0]);
      var rest := Insert(e, s[1..]);
      forall j | 0 <= j < |rest| ensures Precedes(s[0], rest[j]) {
        assert rest[j] in rest;
        if rest[j] != e {
          assert rest[j] in s[1..];
        }
      }
    }
  }

  /** The result lists every selected row, and lists them in strict order, hence each once. */
  lemma {:induction false} RowsAre(logs: map<int, Log>, f: Filter, n: nat)
    ensures Sorted(Rows(logs, f, n))
    ensures forall e :: e in Rows(logs, f, n)
              <==> 0 <= e.id < n && e.id in logs && logs[e.id] == e.log && Selected(f, e.log)
  {
    if n > 0 {
      RowsAre(logs, f, n - 1);
      if n - 1 in logs && Selected(f, logs[n - 1]) {
        InsertSorted(Entry(n - 1, logs[n - 1]), Rows(logs, f, n - 1));
        InsertMembers(Entry(n - 1, logs[n - 1]), Rows(logs, f, n - 1));
      }
    }
  }

  lemma StrictOrderIsOnce(s: seq<Entry>, i: nat, j: nat)
    requires Sorted(s) && i < j < |s|
    ensures s[i] != s[j]
  {
    TextOrder.Trichotomy(s[i].log.requestedAt, s[i].log.requestedAt);
  }

  // ---- LIMIT and OFFSET ----

  function PageNumber(page: int): int {
    if page < 1 then 1 else page
  }

  function PageSize(pageSize: int): int {
    if pageSize < 1 || pageSize > 200 then 50 else pageSize
  }

  function TotalPages(total: nat, size: int): nat
    requires size >= 1
  {
    if total > 0 then (total + size - 1) / size else 0
  }

  function Window(all: seq<Entry>, offset: nat, limit: nat): seq<Entry> {
    if offset >= |all| then []
    else if offset + limit >= |all| then all[offset..]
    else all[offset..offset + limit]
  }

  function Offset(page: int, size: int): nat
    requires page >= 1 && size >= 1
  {
    MulNonNegative(page - 1, size);
    (page - 1) * size
  }

  lemma MulNonNegative(a: int, b: int)
    requires a >= 0 && b >= 0
    ensures a * b >= 0
  {
  }

  /** A page made of a total that was counted first and of rows that were selected later. */
  function PageFrom(total: nat, all: seq<Entry>, page: int, pageSize: int): LogPage {
    var p, size := PageNumber(page), PageSize(pageSize);
    LogPage(Window(all, Offset(p, size), size), total, p, size, TotalPages(total, size))
  }

  /** The page when nothing changed in between. */
  function PageOf(all: seq<Entry>, page: int, pageSize: int): LogPage {
    PageFrom(|all|, all, page, pageSize)
  }

  lemma WindowMembers(all: seq<Entry>, offset: nat, limit: nat)
    ensures |Window(all, offset, limit)| <= limit
    ensures forall e :: e in Window(all, offset, limit) ==> e in all
  {
  }

  lemma PageMembers(logs: map<int, Log>, f: Filter, n: nat, offset: nat, limit: nat)
    ensures var rows := Window(Rows(logs, f, n), offset, limit);
            |rows| <= limit && forall e :: e in rows ==> e.id in logs && logs[e.id] == e.log && Selected(f, e.log)
  {
    RowsAre(logs, f, n);
    WindowMembers(Rows(logs, f, n), offset, limit);
  }

  method PageCount(total: nat, size: int) returns (pages: nat)
    requires size >= 1
    ensures pages == TotalPages(total, size)
  {
    pages := 0;
    if total > 0 {
      pages := (total + size - 1) / size;
    }
  }

  /** The rows of the result one by one, from `offset` on. */
  method CopyRows(all: seq<Entry>, offset: nat, limit: nat) returns (rows: seq<Entry>)
    ensures rows == Window(all, offset, limit)
  {
    rows := [];
    var i := offset;
    while i < |all| && i < offset + limit
      invariant offset <= i <= offset + limit && (i == offset || i <= |all|)
      invariant rows == if offset <= |all| then all[offset..i] else []
    {
      rows := rows + [all[i]];
      i := i + 1;
    }
  }

  /** AccessLogs: counts the rows in one statement and selects one window of them, copied row by
      row, in another. `counted` and `db` are the databases of the two statements; they differ
      when something was recorded or removed in between. */
  method AccessLogs(counted: Db, db: Db, f: Filter, page: int, pageSize: int) returns (out: LogPage)
    requires counted.nextLog >= 0 && db.nextLog >= 0
    ensures out == PageFrom(|Rows(counted.logs, f, counted.nextLog)|, Rows(db.logs, f, db.nextLog), page, pageSize)
    ensures counted == db ==> out == PageOf(Rows(db.logs, f, db.nextLog), page, pageSize)
    ensures |out.logs| <= out.pageSize <= 200
    ensures out.pageSize == (if 1 <= pageSize <= 200 then pageSize else 50)
    ensures out.page == (if page >= 1 then page else 1)
    ensures forall e :: e in out.logs ==> e.id in db.logs && db.logs[e.id] == e.log && Selected(f, e.log)
  {
    var number := if page < 1 then 1 else page;
    var size := if pageSize < 1 || pageSize > 200 then 50 else pageSize;
    var total := |Rows(counted.logs, f, counted.nextLog)|;
    var totalPages := PageCount(total, size);
    var all := Rows(db.logs, f, db.nextLog);
    var rows := CopyRows(all, Offset(number, size), size);
    PageMembers(db.logs, f, db.nextLog, Offset(number, size), size);
    out := LogPage(rows, total, number, size, totalPages);
  }

  // ---- All pages together ----

  /** The rows of pages 1 to n, one page after the other. */
  function PagesUpTo(all: seq<Entry>, pageSize: int, n: nat): seq<Entry> {
    if n == 0 then [] else PagesUpTo(all, pageSize, n - 1) + PageOf(all, n, pageSize).logs
  }

  function Prefix(all: seq<Entry>, n: nat): seq<Entry> {
    if n >= |all| then all else all[..n]
  }

  lemma PrefixAndWindow(all: seq<Entry>, n: nat, size: nat)
    ensures Prefix(all, n) + Window(all, n, size) == Prefix(all, n + size)
  {
  }

  lemma OneMore(n: nat, size: nat)
    requires n > 0
    ensures n * size == (n - 1) * size + size && (n - 1) * size >= 0
  {
    MulNonNegative(n - 1, size);
  }

  lemma {:induction false} PagesArePrefix(all: seq<Entry>, pageSize: int, n: nat)
    ensures n * PageSize(pageSize) >= 0
    ensures PagesUpTo(all, pageSize, n) == Prefix(all, n * PageSize(pageSize))
  {
    if n == 0 {
      assert PagesUpTo(all, pageSize, n) == [];
    } else {
      var size := PageSize(pageSize);
      OneMore(n, size);
      PagesArePrefix(all, pageSize, n - 1);
      PrefixAndWindow(all, (n - 1) * size, size);
    }
  }

  lemma TotalPagesCover(total: nat, size: int)
    requires size >= 1
    ensures TotalPages(total, size) * size >= total
    ensures TotalPages(total, size) > 0 ==> (TotalPages(total, size) - 1) * size < total
  {
    if total > 0 {
      var t := (total + size - 1) / size;
      assert total + size - 1 == t * size + (total + size - 1) % size;
      assert (t - 1) * size == t * size - size;
    }
  }

  /** For a fixed database and filter the pages 1 to TotalPages, one after the other, are exactly
      the selected rows in order: none missing, none twice. */
  lemma PagesPartitionTheLog(db: Db, f: Filter, pageSize: int)
    requires IdsBelow(db)
    ensures var all := PagesUpTo(Rows(db.logs, f, db.nextLog), pageSize,
        TotalPages(|Rows(db.logs, f, db.nextLog)|, PageSize(pageSize)));
            && Sorted(all)
            && (forall i, j :: 0 <= i < j < |all| ==> all[i].id != all[j].id)
            && (forall id :: id in db.logs && Selected(f, db.logs[id]) ==> Entry(id, db.logs[id]) in all)
            && (forall e :: e in all ==> e.id in db.logs && db.logs[e.id] == e.log && Selected(f, e.log))
  {
    var rows := Rows(db.logs, f, db.nextLog);
    RowsAre(db.logs, f, db.nextLog);
    TotalPagesCover(|rows|, PageSize(pageSize));
    PagesArePrefix(rows, pageSize, TotalPages(|rows|, PageSize(pageSize)));
    forall i, j | 0 <= i < j < |rows| ensures rows[i].id != rows[j].id {
      assert rows[i] in rows && rows[j] in rows;
      StrictOrderIsOnce(rows, i, j);
    }
  }

  /** None of these pages is empty, and none exceeds the page size. */
  lemma PagesAreFilled(all: seq<Entry>, pageSize: int, page: int)
    requires 1 <= page <= TotalPages(|all|, PageSize(pageSize))
    ensures 1 <= |PageOf(all, page, pageSize).logs| <= PageSize(pageSize)
    ensures page < TotalPages(|all|, PageSize(pageSize)) ==> |PageOf(all, page, pageSize).logs| == PageSize(pageSize)
  {
    var size := PageSize(pageSize);
    var total := TotalPages(|all|, size);
    TotalPagesCover(|all|, size);
    MulMonotone(page - 1, total - 1, size);
    if page < total {
      MulMonotone(page, total - 1, size);
      OneMore(page, size);
    }
  }

  lemma MulMonotone(a: int, b: int, size: int)
    requires a <= b && size >= 0
    ensures a * size <= b * size
  {
    MulNonNegative(b - a, size);
  }

  // ---- Following the links ----

  /** The handler's link to the next page, 0 when there is none. */
  function NextPage(p: LogPage): int {
    if p.page < p.totalPages then p.page + 1 else 0
  }

  /** The pages visited from `page` on by following NextPage. */
  function Walk(all: seq<Entry>, pageSize: int, page: int): seq<LogPage>
    requires page >= 1
    decreases TotalPages(|all|, PageSize(pageSize)) - page
  {
    var p := PageOf(all, page, pageSize);
    if NextPage(p) == 0 then [p] else [p] + Walk(all, pageSize, NextPage(p))
  }

  /** Following NextPage from page 1 visits the pages 1 to TotalPages, in order, and no other;
      only an empty log shows its single empty page 1. */
  lemma {:induction false} WalkVisitsAllPages(all: seq<Entry>, pageSize: int, page: int)
    requires 1 <= page && (page == 1 || page <= TotalPages(|all|, PageSize(pageSize)))
    ensures var last := TotalPages(|all|, PageSize(pageSize));
            var pages := Walk(all, pageSize, page);
            && |pages| == (if last == 0 then 1 else last - page + 1)
            && forall i :: 0 <= i < |pages| ==> pages[i] == PageOf(all, page + i, pageSize)
    decreases TotalPages(|all|, PageSize(pageSize)) - page
  {
    var p := PageOf(all, page, pageSize);
    if NextPage(p) != 0 {
      WalkVisitsAllPages(all, pageSize, page + 1);
      var rest := Walk(all, pageSize, page + 1);
      forall i | 0 <= i < |rest| + 1 ensures ([p] + rest)[i] == PageOf(all, page + i, pageSize) {
        if i > 0 {
          assert rest[i - 1] == PageOf(all, page + 1 + (i - 1), pageSize);
        }
      }
    }
  }
}
