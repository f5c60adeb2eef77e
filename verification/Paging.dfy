/**
 Task lists by keyset: a page is read with one row to spare, and its cursor names the last row shown.
 A cursor is either one the service issued, or is refused; signatures are not modelled.
 */
module Paging {
  import opened Common
  import opened Tables
  import opened Filters
  import Domain

  /** The zero time, which the query also takes to mean that there is no cursor. */
  const ZERO_TIME := 0

  datatype Key = Key(createdAt: int, id: string)

  /** `filter` is the text of the filter, which the service hashes. */
  datatype Payload = Payload(tenantId: string, filter: string, key: Key, expiresAt: int)

  datatype Cursor = Start | Issued(payload: Payload) | Forged

  datatype Page = Page(items: seq<Task>, next: Option<Payload>)

  function KeyOf(t: Task): Key {
    Key(t.createdAt, t.id)
  }

  /** The order of the keys, `(created_at, id)`. */
  predicate Before(a: Key, b: Key) {
    a.createdAt < b.createdAt || (a.createdAt == b.createdAt && Less(a.id, b.id))
  }

  // -------------------------------------------------------------------- the query

  function Insert(t: Task, sorted: seq<Task>): seq<Task>
    decreases |sorted|
  {
    if sorted == [] || Before(KeyOf(sorted[0]), KeyOf(t)) then [t] + sorted else [sorted[0]] + Insert(t, sorted[1..])
  }

  function SortDesc(rows: seq<Task>): seq<Task>
    decreases |rows|
  {
    if rows == [] then [] else Insert(rows[0], SortDesc(rows[1..]))
  }

  predicate Selected(t: Task, f: Filter, after: Option<Key>) {
    Matches(t, f) && (after.None? || Before(KeyOf(t), after.value))
  }

  function Select(rows: seq<Task>, f: Filter, after: Option<Key>): seq<Task>
    decreases |rows|
  {
    if rows == [] then [] else (if Selected(rows[0], f, after) then [rows[0]] else []) + Select(rows[1..], f, after)
  }

  function Listing(rows: seq<Task>, f: Filter, after: Option<Key>): seq<Task> {
    Select(SortDesc(rows), f, after)
  }

  function Take(s: seq<Task>, n: nat): seq<Task> {
    if |s| <= n then s else s[..n]
  }

  /** Nothing before a cursor whose time is zero is skipped. */
  function AfterKey(cursor: Option<Key>): Option<Key> {
    if cursor.Some? && cursor.value.createdAt == ZERO_TIME then None else cursor
  }

  function ListTaskRecords(rows: seq<Task>, f: Filter, cursor: Option<Key>, limit: nat): seq<Task> {
    Take(Listing(rows, f, AfterKey(cursor)), limit)
  }

  // ------------------------------------------------------------------ the service

  function DecodeCursor(c: Cursor, tenantId: string, f: Filter, now: int): Result<Option<Key>> {
    match c
    case Start => Ok(None)
    case Forged => Err(InvalidArgument)
    case Issued(p) =>
      if p.tenantId != tenantId || p.filter != DigestText(f) || p.key.id == "" || now >= p.expiresAt then Err(InvalidArgument)
      else Ok(Some(p.key))
  }

  function PageSize(limit: int): int {
    if limit == 0 then 20 else limit
  }

  /** The page after a cursor: the next rows of the list, and a cursor exactly when more follow. */
  function PageOf(rows: seq<Task>, tenantId: string, f: Filter, limit: int, cursor: Cursor, now: int, ttl: int): Result<Page> {
    var size, key := PageSize(limit), DecodeCursor(cursor, tenantId, f, now);
    if !(1 <= size <= 100) then Err(InvalidArgument)
    else if key.Err? then Err(key.code)
    else
      var listing := Listing(rows, f, AfterKey(key.value));
      if |listing| <= size then Ok(Page(listing, None))
      else Ok(Page(listing[..size], Some(Payload(tenantId, DigestText(f), KeyOf(listing[size - 1]), now + ttl))))
  }

  /** `rows` are the tasks of the tenant. One row more than the page is read, to know whether more follow. */
  method ListTasks(rows: seq<Task>, tenantId: string, f: Filter, limit: int, cursor: Cursor, now: int, ttl: int)
    returns (r: Result<Page>)
    ensures r == PageOf(rows, tenantId, f, limit, cursor, now, ttl)
  {
    var size := limit;
    if size == 0 {
      size := 20;
    }
    if size < 1 || size > 100 {
      return Err(InvalidArgument);
    }
    var key := DecodeCursor(cursor, tenantId, f, now);
    if key.Err? {
      return Err(key.code);
    }
    var records := ListTaskRecords(rows, f, key.value, size + 1);
    var hasMore := |records| > size;
    if hasMore {
      records := records[..size];
      assert records == Listing(rows, f, AfterKey(key.value))[..size];
    }
    var next: Option<Payload> := None;
    if hasMore {
      next := Some(Payload(tenantId, DigestText(f), KeyOf(records[|records| - 1]), now + ttl));
    }
    return Ok(Page(records, next));
  }

  // -------------------------------------------------------------------- the order

  lemma BeforeTotal(a: Key, b: Key)
    ensures Before(a, b) || a == b || Before(b, a)
    ensures !(Before(a, b) && Before(b, a)) && !Before(a, a)
  {
    LessTotal(a.id, b.id);
    LessTotal(a.id, a.id);
  }

  lemma BeforeTransitive(a: Key, b: Key, c: Key)
    requires Before(a, b) && Before(b, c)
    ensures Before(a, c)
  {
    if a.createdAt == b.createdAt == c.createdAt {
      LessTransitive(a.id, b.id, c.id);
    }
  }

  ghost predicate Desc(s: seq<Task>) {
    forall i, j :: 0 <= i < j < |s| ==> Before(KeyOf(s[j]), KeyOf(s[i]))
  }

  /** Ids are the primary key. */
  ghost predicate UniqueIds(rows: seq<Task>) {
    forall i, j :: 0 <= i < j < |rows| ==> rows[i].id != rows[j].id
  }

  lemma {:induction false} InsertSorts(t: Task, sorted: seq<Task>)
    requires Desc(sorted) && forall s :: s in sorted ==> s.id != t.id
    ensures Desc(Insert(t, sorted)) && forall x :: x in Insert(t, sorted) <==> x == t || x in sorted
    decreases |sorted|
  {
    if sorted != [] && !Before(KeyOf(sorted[0]), KeyOf(t)) {
      assert sorted[0] in sorted && forall s :: s in sorted[1..] ==> s in sorted;
      InsertSorts(t, sorted[1..]);
      var rest := Insert(t, sorted[1..]);
      BeforeTotal(KeyOf(sorted[0]), KeyOf(t));
      forall j | 0 <= j < |rest| ensures Before(KeyOf(rest[j]), KeyOf(sorted[0])) {
        assert rest[j] in rest;
        if rest[j] != t {
          var k :| 0 <= k < |sorted[1..]| && sorted[1..][k] == rest[j];
          assert sorted[k + 1] == rest[j];
        }
      }
      assert sorted == [sorted[0]] + sorted[1..];
    } else if sorted != [] {
      forall j | 0 <= j < |sorted| ensures Before(KeyOf(sorted[j]), KeyOf(t)) {
        if j > 0 {
          BeforeTransitive(KeyOf(sorted[j]), KeyOf(sorted[0]), KeyOf(t));
        }
      }
    }
  }

  lemma {:induction false} SortDescSorts(rows: seq<Task>)
    requires UniqueIds(rows)
    ensures Desc(SortDesc(rows)) && forall x :: x in SortDesc(rows) <==> x in rows
    decreases |rows|
  {
    if rows != [] {
      SortDescSorts(rows[1..]);
      forall s | s in SortDesc(rows[1..]) ensures s.id != rows[0].id {
        var k :| 0 <= k < |rows[1..]| && rows[1..][k] == s;
        assert rows[k + 1] == s;
      }
      InsertSorts(rows[0], SortDesc(rows[1..]));
      assert rows == [rows[0]] + rows[1..];
    }
  }

  lemma {:induction false} SelectKeeps(rows: seq<Task>, f: Filter, after: Option<Key>)
    requires Desc(rows)
    ensures Desc(Select(rows, f, after)) && forall x :: x in Select(rows, f, after) <==> x in rows && Selected(x, f, after)
    decreases |rows|
  {
    if rows != [] {
      SelectKeeps(rows[1..], f, after);
      var rest := Select(rows[1..], f, after);
      forall j | 0 <= j < |rest| ensures Before(KeyOf(rest[j]), KeyOf(rows[0])) {
        assert rest[j] in rest;
        var k :| 0 <= k < |rows[1..]| && rows[1..][k] == rest[j];
        assert rows[k + 1] == rest[j];
      }
      assert rows == [rows[0]] + rows[1..];
    }
  }

  /** A listing holds exactly the selected rows, newest first, each once. */
  lemma ListingIs(rows: seq<Task>, f: Filter, after: Option<Key>)
    requires UniqueIds(rows)
    ensures Desc(Listing(rows, f, after)) && forall x :: x in Listing(rows, f, after) <==> x in rows && Selected(x, f, after)
  {
    SortDescSorts(rows);
    SelectKeeps(SortDesc(rows), f, after);
  }

  /** Two descending lists of the same rows are the same list. */
  lemma {:induction false} DescIsUnique(a: seq<Task>, b: seq<Task>)
    requires Desc(a) && Desc(b) && forall x :: x in a <==> x in b
    ensures a == b
    decreases |a|
  {
    assert b != [] ==> b[0] in b;
    assert a != [] ==> a[0] in a;
    if a != [] {
      var j :| 0 <= j < |b| && b[j] == a[0];
      var i :| 0 <= i < |a| && a[i] == b[0];
      BeforeTotal(KeyOf(a[0]), KeyOf(b[0]));
      assert a[0] == b[0];
      TailsAgree(a, b);
      DescIsUnique(a[1..], b[1..]);
      assert a == [a[0]] + a[1..] && b == [b[0]] + b[1..];
    }
  }

  lemma TailsAgree(a: seq<Task>, b: seq<Task>)
    requires a != [] && b != [] && a[0] == b[0] && Desc(a) && Desc(b) && forall x :: x in a <==> x in b
    ensures forall x :: x in a[1..] <==> x in b[1..]
  {
    BeforeTotal(KeyOf(a[0]), KeyOf(a[0]));
    assert a == [a[0]] + a[1..] && b == [b[0]] + b[1..];
    forall x ensures x in a[1..] <==> x in b[1..] {
      if x in a[1..] {
        var i :| 0 <= i < |a[1..]| && a[1..][i] == x;
        assert Before(KeyOf(a[i + 1]), KeyOf(a[0])) && x in a;
      }
      if x in b[1..] {
        var i :| 0 <= i < |b[1..]| && b[1..][i] == x;
        assert Before(KeyOf(b[i + 1]), KeyOf(b[0])) && x in b;
      }
    }
  }

  // ------------------------------------------------------------------ continuing

  /** What follows row `j` of a listing is the listing after its key. */
  lemma ContinuesAfter(rows: seq<Task>, f: Filter, after: Option<Key>, j: nat)
    requires UniqueIds(rows) && j < |Listing(rows, f, after)|
    ensures Listing(rows, f, Some(KeyOf(Listing(rows, f, after)[j]))) == Listing(rows, f, after)[j + 1..]
  {
    var whole := Listing(rows, f, after);
    var key := KeyOf(whole[j]);
    ListingIs(rows, f, after);
    ListingIs(rows, f, Some(key));
    var rest := whole[j + 1..];
    assert whole[j] in whole;
    forall x ensures x in rest <==> x in Listing(rows, f, Some(key)) {
      if x in rest {
        var i :| 0 <= i < |rest| && rest[i] == x;
        assert whole[j + 1 + i] == x && x in whole;
      }
      if x in Listing(rows, f, Some(key)) {
        if after.Some? {
          BeforeTransitive(KeyOf(x), key, after.value);
        }
        assert x in whole;
        var i :| 0 <= i < |whole| && whole[i] == x;
        BeforeTotal(KeyOf(x), key);
        assert i > j;
        assert rest[i - j - 1] == x;
      }
    }
    DescIsUnique(rest, Listing(rows, f, Some(key)));
  }

  /**
   The cursor after row `j` of a listing that goes on reads the continuation exactly when its time is
   not the zero time; otherwise it reads the list from the start again.
   */
  lemma CursorContinuesIff(rows: seq<Task>, f: Filter, after: Option<Key>, j: nat, limit: nat)
    requires UniqueIds(rows) && j + 1 < |Listing(rows, f, after)| && limit > 0
    ensures var whole := Listing(rows, f, after);
            ListTaskRecords(rows, f, Some(KeyOf(whole[j])), limit) == Take(whole[j + 1..], limit) <==> whole[j].createdAt != ZERO_TIME
    ensures var whole := Listing(rows, f, after);
            whole[j].createdAt == ZERO_TIME ==>
              ListTaskRecords(rows, f, Some(KeyOf(whole[j])), limit) == ListTaskRecords(rows, f, None, limit)
  {
    var whole := Listing(rows, f, after);
    ContinuesAfter(rows, f, after, j);
    if whole[j].createdAt == ZERO_TIME {
      FirstIsNotLater(rows, f, after, j);
    }
  }

  /** The first row of the whole list does not come after row `j` of any listing. */
  lemma FirstIsNotLater(rows: seq<Task>, f: Filter, after: Option<Key>, j: nat)
    requires UniqueIds(rows) && j + 1 < |Listing(rows, f, after)|
    ensures Listing(rows, f, None) != [] && Listing(rows, f, None)[0] != Listing(rows, f, after)[j + 1]
  {
    var whole, all := Listing(rows, f, after), Listing(rows, f, None);
    ListingIs(rows, f, after);
    ListingIs(rows, f, None);
    assert whole[j] in whole && whole[j] in all;
    var i :| 0 <= i < |all| && all[i] == whole[j];
    assert Before(KeyOf(whole[j + 1]), KeyOf(whole[j]));
    BeforeTotal(KeyOf(whole[j + 1]), KeyOf(whole[j]));
  }

  // ------------------------------------------------------------------- following

  /** Stored tasks have a time and an id. */
  ghost predicate Dated(rows: seq<Task>) {
    forall t :: t in rows ==> t.createdAt != ZERO_TIME && t.id != ""
  }

  /** Between two pages only rows newer than all earlier ones may be added. */
  ghost predicate GrowsNewer(before: seq<Task>, after: seq<Task>) {
    && (forall t :: t in before ==> t in after)
    && (forall t, o :: t in after && t !in before && o in before ==> Before(KeyOf(o), KeyOf(t)))
  }

  /** Newer rows do not show after an existing key. */
  lemma NewerDoNotShow(before: seq<Task>, after: seq<Task>, f: Filter, key: Key)
    requires UniqueIds(before) && UniqueIds(after) && GrowsNewer(before, after)
    requires exists t :: t in before && KeyOf(t) == key
    ensures Listing(before, f, Some(key)) == Listing(after, f, Some(key))
  {
    var o :| o in before && KeyOf(o) == key;
    ListingIs(before, f, Some(key));
    ListingIs(after, f, Some(key));
    forall t | t in after && t !in before ensures !Selected(t, f, Some(key)) {
      BeforeTotal(key, KeyOf(t));
    }
    DescIsUnique(Listing(before, f, Some(key)), Listing(after, f, Some(key)));
  }

  /** One call of a client that follows cursors: the table and the clock as they then are, and any limit. */
  datatype Visit = Visit(rows: seq<Task>, limit: int, now: int)

  /**
   All that a client is shown that passes each page's cursor to the next call, until a page has none or
   the visits end; with the cursor left at the end. A refused page ends it.
   */
  function Follow(visits: seq<Visit>, tenantId: string, f: Filter, cursor: Cursor, ttl: int): Result<Page>
    requires visits != []
    decreases |visits|
  {
    var v := visits[0];
    var first := PageOf(v.rows, tenantId, f, v.limit, cursor, v.now, ttl);
    if first.Err? || first.value.next.None? || |visits| == 1 then first
    else
      var rest := Follow(visits[1..], tenantId, f, Issued(first.value.next.value), ttl);
      if rest.Err? then rest else Ok(Page(first.value.items + rest.value.items, rest.value.next))
  }

  ghost predicate ValidVisit(v: Visit) {
    UniqueIds(v.rows) && Dated(v.rows) && 1 <= PageSize(v.limit) <= 100
  }

  /** Meanwhile only newer rows arrive, and each visit comes before the cursor of the previous one expires. */
  ghost predicate Orderly(visits: seq<Visit>, ttl: int) {
    && (forall i :: 0 <= i < |visits| ==> ValidVisit(visits[i]))
    && (forall i :: 0 < i < |visits| ==> Follows(visits[i - 1], visits[i], ttl))
  }

  ghost predicate Follows(before: Visit, after: Visit, ttl: int) {
    GrowsNewer(before.rows, after.rows) && after.now < before.now + ttl
  }

  lemma ListedIsDated(rows: seq<Task>, f: Filter, after: Option<Key>, j: nat)
    requires UniqueIds(rows) && Dated(rows) && j < |Listing(rows, f, after)|
    ensures var t := Listing(rows, f, after)[j]; t in rows && t.createdAt != ZERO_TIME && t.id != ""
  {
    ListingIs(rows, f, after);
    assert Listing(rows, f, after)[j] in Listing(rows, f, after);
  }

  /** A cursor that was issued is accepted exactly with its tenant, a filter of the same text, and before it expires. */
  lemma IssuedIsAcceptedIff(
    v: Visit, tenantId: string, f: Filter, cursor: Cursor, ttl: int, otherTenant: string, otherFilter: Filter, later: int)
    requires ValidVisit(v)
    requires var page := PageOf(v.rows, tenantId, f, v.limit, cursor, v.now, ttl); page.Ok? && page.value.next.Some?
    ensures var page := PageOf(v.rows, tenantId, f, v.limit, cursor, v.now, ttl).value;
            var read := DecodeCursor(Issued(page.next.value), otherTenant, otherFilter, later);
            && (read.Ok? <==> otherTenant == tenantId && DigestText(otherFilter) == DigestText(f) && later < v.now + ttl)
            && page.items != []
            && (read.Ok? ==> read.value == Some(KeyOf(page.items[|page.items| - 1])))
  {
    var key := DecodeCursor(cursor, tenantId, f, v.now).value;
    ListedIsDated(v.rows, f, AfterKey(key), PageSize(v.limit) - 1);
  }

  /** Where a readable cursor with a time continues. */
  predicate Continues(cursor: Cursor, tenantId: string, f: Filter, now: int) {
    var key := DecodeCursor(cursor, tenantId, f, now);
    key.Ok? && (key.value.Some? ==> key.value.value.createdAt != ZERO_TIME)
  }

  /** What a page leaves is the list after its cursor, also in a later table. */
  lemma PageLeavesRest(before: Visit, after: Visit, tenantId: string, f: Filter, cursor: Cursor, ttl: int)
    requires ValidVisit(before) && ValidVisit(after) && Follows(before, after, ttl) && Continues(cursor, tenantId, f, before.now)
    requires PageOf(before.rows, tenantId, f, before.limit, cursor, before.now, ttl).value.next.Some?
    ensures var page := PageOf(before.rows, tenantId, f, before.limit, cursor, before.now, ttl).value;
            var rest := DecodeCursor(Issued(page.next.value), tenantId, f, after.now);
            && Continues(Issued(page.next.value), tenantId, f, after.now)
            && Listing(before.rows, f, DecodeCursor(cursor, tenantId, f, before.now).value)
               == page.items + Listing(after.rows, f, rest.value)
  {
    var key := DecodeCursor(cursor, tenantId, f, before.now).value;
    var listing, size := Listing(before.rows, f, key), PageSize(before.limit);
    IssuedIsAcceptedIff(before, tenantId, f, cursor, ttl, tenantId, f, after.now);
    ListedIsDated(before.rows, f, key, size - 1);
    ContinuesAfter(before.rows, f, key, size - 1);
    NewerDoNotShow(before.rows, after.rows, f, KeyOf(listing[size - 1]));
    assert listing == listing[..size] + listing[size..];
  }

  /**
   Following the cursors shows exactly the list as it was at the first page: no page is refused, the
   pages one after the other are a prefix of that list, newest first with no row lost or repeated, the
   whole of it exactly when no cursor is left, and every page before that shows at least one row more,
   so there are at most as many pages as rows; whatever limits are asked for and newer rows arrive.
   */
  lemma {:induction false} FollowShowsTheList(visits: seq<Visit>, tenantId: string, f: Filter, cursor: Cursor, ttl: int)
    requires visits != [] && Orderly(visits, ttl) && Continues(cursor, tenantId, f, visits[0].now)
    ensures var shown := Follow(visits, tenantId, f, cursor, ttl);
            var listing := Listing(visits[0].rows, f, DecodeCursor(cursor, tenantId, f, visits[0].now).value);
            && shown.Ok? && shown.value.items <= listing
            && (shown.value.next.None? <==> shown.value.items == listing)
            && (shown.value.next.Some? ==> |shown.value.items| >= |visits|)
    decreases |visits|
  {
    var v := visits[0];
    assert ValidVisit(v);
    var first := PageOf(v.rows, tenantId, f, v.limit, cursor, v.now, ttl).value;
    if first.next.Some? && |visits| > 1 {
      assert ValidVisit(visits[1]) && Follows(visits[1 - 1], visits[1], ttl);
      PageLeavesRest(v, visits[1], tenantId, f, cursor, ttl);
      OrderlyRest(visits, ttl);
      FollowShowsTheList(visits[1..], tenantId, f, Issued(first.next.value), ttl);
    }
  }

  lemma OrderlyRest(visits: seq<Visit>, ttl: int)
    requires visits != [] && Orderly(visits, ttl)
    ensures Orderly(visits[1..], ttl)
  {
    var rest := visits[1..];
    forall i | 0 <= i < |rest| ensures ValidVisit(rest[i]) {
      assert rest[i] == visits[i + 1];
    }
    forall i | 0 < i < |rest| ensures Follows(rest[i - 1], rest[i], ttl) {
      assert Follows(visits[(i + 1) - 1], visits[i + 1], ttl);
    }
  }

  /** So a client that starts without a cursor and calls often enough sees the whole list of its first call. */
  lemma EveryRowIsShown(visits: seq<Visit>, tenantId: string, f: Filter, ttl: int)
    requires visits != [] && Orderly(visits, ttl) && |visits| >= |Listing(visits[0].rows, f, None)|
    ensures Follow(visits, tenantId, f, Start, ttl) == Ok(Page(Listing(visits[0].rows, f, None), None))
  {
    FollowShowsTheList(visits, tenantId, f, Start, ttl);
  }

  // ------------------------------------------------------------ another filter

  /** A claimed and an open task, the claimed one newer. */
  function TwoTasks(): seq<Task> {
    [Task("2", 2, Domain.Claimed, "", ""), Task("1", 1, Domain.Open, "", "")]
  }

  /**
   A cursor issued for one filter can be accepted with another: here for the claimed and open tasks,
   with the single status that joins the two texts, under which no task is left to show.
   */
  lemma CursorForAnotherFilter() returns (payload: Payload)
    ensures var f, g := Filter(["claimed", "open"], "", ""), Filter(["claimed,open"], "", "");
            && PageOf(TwoTasks(), "t", f, 1, Start, 0, 10) == Ok(Page([TwoTasks()[0]], Some(payload)))
            && PageOf(TwoTasks(), "t", f, 1, Issued(payload), 5, 10) == Ok(Page([TwoTasks()[1]], None))
            && PageOf(TwoTasks(), "t", g, 1, Issued(payload), 5, 10) == Ok(Page([], None))
  {
    var f, g := Filter(["claimed", "open"], "", ""), Filter(["claimed,open"], "", "");
    var rows := TwoTasks();
    MergedStatuses(f, Domain.Claimed, Domain.Open, rows[0]);
    assert "claimed" + "," + "open" == "claimed,open";
    SortedTwo();
    var key := KeyOf(rows[0]);
    payload := Payload("t", DigestText(f), key, 10);
    assert Select(rows, f, None) == rows;
    assert Select(rows, f, Some(key)) == [rows[1]];
    assert Select(rows, g, Some(key)) == [];
  }

  lemma SortedTwo()
    ensures SortDesc(TwoTasks()) == TwoTasks()
  {
    var rows := TwoTasks();
    assert rows[1..] == [rows[1]] && SortDesc([rows[1]]) == Insert(rows[1], SortDesc([rows[1]][1..])) == [rows[1]];
  }
}
