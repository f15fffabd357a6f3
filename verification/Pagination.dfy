/** Listing profiles page by page, each page beginning after the last row of the one before. */
module Pagination {
  import opened Basics
  import opened Text
  import opened Lists

  /** The latest version of a profile, as a listing shows it. */
  datatype Row = Row(family: Id, version: int, createdAt: int)

  datatype Item = Item(entity: Id, row: Row)

  /** Where a page begins: after the row of `entity`, created at `createdAt`. */
  datatype Cursor = Cursor(createdAt: int, entity: Id)

  datatype Mode = UpdatedDesc | UpdatedAsc

  datatype Page = Page(items: seq<Item>, next: Option<Cursor>)

  // ---------- the order ----------

  predicate Before(mode: Mode, a: Cursor, b: Cursor) {
    (match mode
     case UpdatedDesc => a.createdAt > b.createdAt
     case UpdatedAsc => a.createdAt < b.createdAt) ||
    (a.createdAt == b.createdAt && a.entity < b.entity)
  }

  function Key(i: Item): Cursor {
    Cursor(i.row.createdAt, i.entity)
  }

  /** The cursor condition of the query. */
  predicate After(mode: Mode, cursor: Option<Cursor>, i: Item) {
    cursor.Some? ==>
      match mode
      case UpdatedDesc =>
        i.row.createdAt < cursor.value.createdAt || (i.row.createdAt == cursor.value.createdAt && i.entity > cursor.value.entity)
      case UpdatedAsc =>
        i.row.createdAt > cursor.value.createdAt || (i.row.createdAt == cursor.value.createdAt && i.entity > cursor.value.entity)
  }

  function ByTime(mode: Mode): (r: (Item, Item) -> bool) {
    (a, b) => Before(mode, Key(a), Key(b))
  }

  /** The row of the item is in the table and passes the filter. */
  predicate Listed(rows: map<Id, Row>, filter: Item -> bool, i: Item) {
    i.entity in rows && rows[i.entity] == i.row && filter(i)
  }

  function Matching(rows: map<Id, Row>, filter: Item -> bool): set<Id> {
    set e | e in rows && filter(Item(e, rows[e]))
  }

  // ---------- one page ----------

  /** The first `n` listed items after the cursor, in order. */
  ghost predicate AreFirst(rows: map<Id, Row>, filter: Item -> bool, mode: Mode, cursor: Option<Cursor>, n: nat, items: seq<Item>) {
    Ascending(items, ByTime(mode)) && |items| <= n &&
    (forall i :: i in items ==> Listed(rows, filter, i) && After(mode, cursor, i)) &&
    forall i :: Listed(rows, filter, i) && After(mode, cursor, i) && i !in items ==>
      |items| == n && forall k :: 0 <= k < n ==> Before(mode, Key(items[k]), Key(i))
  }

  ghost predicate IsPage(rows: map<Id, Row>, filter: Item -> bool, mode: Mode, cursor: Option<Cursor>, limit: nat, page: Page) {
    AreFirst(rows, filter, mode, cursor, limit, page.items) &&
    (page.next.Some? <==> exists i :: Listed(rows, filter, i) && After(mode, cursor, i) && i !in page.items) &&
    (page.next.Some? ==> page.items != [] && page.next.value == Key(page.items[|page.items| - 1]))
  }

  function SortMode(sort: string): Option<Mode> {
    var s := TrimSpace(ToLower(sort));
    if s == "" || s == "updated_desc" then Some(UpdatedDesc)
    else if s == "updated_asc" then Some(UpdatedAsc)
    else None
  }

  method FirstOf(rows: map<Id, Row>, mode: Mode, ids: set<Id>) returns (e: Id)
    requires ids != {} && ids <= rows.Keys
    ensures e in ids && forall x :: x in ids && x != e ==> Before(mode, Key(Item(e, rows[e])), Key(Item(x, rows[x])))
  {
    e :| e in ids;
    var rest := ids - {e};
    while rest != {}
      invariant rest <= ids && e in ids && e !in rest
      invariant forall x :: x in ids && x !in rest && x != e ==> Before(mode, Key(Item(e, rows[e])), Key(Item(x, rows[x])))
    {
      var x :| x in rest;
      rest := rest - {x};
      if Before(mode, Key(Item(x, rows[x])), Key(Item(e, rows[e]))) {
        e := x;
      }
    }
  }

  /** `items` are the first of `all`, and `rest` the others. */
  ghost predicate Taken(rows: map<Id, Row>, mode: Mode, all: set<Id>, rest: set<Id>, items: seq<Item>) {
    rest <= all <= rows.Keys && Ascending(items, ByTime(mode)) &&
    (forall i :: i in items ==> i.entity in all && i.entity !in rest && i.row == rows[i.entity]) &&
    (forall e :: e in all ==> e in rest || Item(e, rows[e]) in items) &&
    forall k, e :: 0 <= k < |items| && e in rest ==> Before(mode, Key(items[k]), Key(Item(e, rows[e])))
  }

  /** SELECT ... WHERE ... ORDER BY ... LIMIT n. */
  method QueryRows(rows: map<Id, Row>, filter: Item -> bool, mode: Mode, cursor: Option<Cursor>, n: nat) returns (items: seq<Item>)
    ensures AreFirst(rows, filter, mode, cursor, n, items)
  {
    var all := set e | e in rows && filter(Item(e, rows[e])) && After(mode, cursor, Item(e, rows[e]));
    var rest := all;
    items := [];
    while rest != {} && |items| < n
      invariant Taken(rows, mode, all, rest, items) && |items| <= n
    {
      hide Before, Key;
      var e := FirstOf(rows, mode, rest);
      items := items + [Item(e, rows[e])];
      rest := rest - {e};
    }
    TakenAreFirst(rows, filter, mode, cursor, n, all, rest, items);
  }

  lemma TakenAreFirst(rows: map<Id, Row>, filter: Item -> bool, mode: Mode, cursor: Option<Cursor>, n: nat, all: set<Id>, rest: set<Id>, items: seq<Item>)
    requires Taken(rows, mode, all, rest, items) && |items| <= n && (rest == {} || |items| == n)
    requires forall e :: e in all <==> e in rows && filter(Item(e, rows[e])) && After(mode, cursor, Item(e, rows[e]))
    ensures AreFirst(rows, filter, mode, cursor, n, items)
  {
    hide Before, Key, After;
    forall i | Listed(rows, filter, i) && After(mode, cursor, i) && i !in items
      ensures |items| == n && forall k :: 0 <= k < n ==> Before(mode, Key(items[k]), Key(i))
    {
      assert i == Item(i.entity, rows[i.entity]);
      assert i.entity in all && i.entity in rest;
    }
  }

  datatype ListOutcome = Listing(page: Page, total: nat) | BadSort

  /** Asks for one row more than fits, to see whether there is a next page. The total is counted by a
      query of its own, which may find the table as it is `later`. */
  method List(rows: map<Id, Row>, later: map<Id, Row>, filter: Item -> bool, sort: string, cursor: Option<Cursor>, limit: int)
    returns (r: ListOutcome)
    ensures r.BadSort? <==> SortMode(sort).None?
    ensures r.Listing? ==>
      IsPage(rows, filter, SortMode(sort).value, cursor, NormalLimit(limit, 20, 100), r.page) &&
      r.total == |set e | e in later && filter(Item(e, later[e]))|
    ensures r.BadSort? <==> TrimSpace(ToLower(sort)) !in {"", "updated_desc", "updated_asc"}
    ensures r.Listing? ==>
      ShowsFirst(rows, filter, TrimSpace(ToLower(sort)) == "updated_asc", cursor,
                 if limit <= 0 then 20 else if limit > 100 then 100 else limit, r.page)
  {
    hide AreFirst, TrimSpace, ShowsFirst, IsPage;
    if SortMode(sort).None? {
      return BadSort;
    }
    var mode := SortMode(sort).value;
    var n := NormalLimit(limit, 20, 100);
    var items := QueryRows(rows, filter, mode, cursor, n + 1);
    var next := None;
    FirstOfMore(rows, filter, mode, cursor, n, items);
    if |items| > n {
      var last := items[n - 1];
      next := Some(Cursor(last.row.createdAt, last.entity));
      items := items[..n];
    }
    r := Listing(Page(items, next), |Matching(later, filter)|);
    IsThePage(rows, filter, mode, cursor, n, r.page);
    PageShows(rows, filter, mode, cursor, n, r.page);
  }

  lemma IsThePage(rows: map<Id, Row>, filter: Item -> bool, mode: Mode, cursor: Option<Cursor>, n: nat, page: Page)
    requires AreFirst(rows, filter, mode, cursor, n, page.items)
    requires page.next.Some? <==> exists i :: Listed(rows, filter, i) && After(mode, cursor, i) && i !in page.items
    requires page.next.Some? ==> page.items != [] && page.next.value == Key(page.items[|page.items| - 1])
    ensures IsPage(rows, filter, mode, cursor, n, page)
  {
  }

  // ---------- what a client sees of a page ----------

  /** The row comes first in a listing: by its time, newest first unless the oldest are asked for, and
      at the same time by its id. */
  predicate ComesFirst(oldestFirst: bool, time: int, e: Id, time': int, e': Id) {
    if time == time' then e < e' else if oldestFirst then time < time' else time > time'
  }

  /** The row passes the filter and comes after the cursor. */
  predicate Qualifies(rows: map<Id, Row>, filter: Item -> bool, oldestFirst: bool, cursor: Option<Cursor>, e: Id) {
    e in rows && filter(Item(e, rows[e])) &&
    (cursor.Some? ==> ComesFirst(oldestFirst, cursor.value.createdAt, cursor.value.entity, rows[e].createdAt, e))
  }

  predicate IsShown(items: seq<Item>, e: Id) {
    exists i :: 0 <= i < |items| && items[i].entity == e
  }

  /** The page shows, in order, the first rows that qualify, and as many as fit. It names the last of
      them as the next cursor if and only if it leaves some out. */
  ghost predicate ShowsFirst(rows: map<Id, Row>, filter: Item -> bool, oldestFirst: bool, cursor: Option<Cursor>, most: nat, page: Page) {
    var items := page.items;
    |items| <= most &&
    (forall i, j :: 0 <= i < j < |items| ==>
      ComesFirst(oldestFirst, items[i].row.createdAt, items[i].entity, items[j].row.createdAt, items[j].entity)) &&
    (forall i :: 0 <= i < |items| ==>
      Qualifies(rows, filter, oldestFirst, cursor, items[i].entity) && items[i].row == rows[items[i].entity]) &&
    (forall e :: Qualifies(rows, filter, oldestFirst, cursor, e) && !IsShown(items, e) ==>
      |items| == most && forall i :: 0 <= i < |items| ==>
        ComesFirst(oldestFirst, items[i].row.createdAt, items[i].entity, rows[e].createdAt, e)) &&
    (page.next.Some? <==> exists e :: Qualifies(rows, filter, oldestFirst, cursor, e) && !IsShown(items, e)) &&
    (page.next.Some? ==> items != [] && page.next == Some(Cursor(items[|items| - 1].row.createdAt, items[|items| - 1].entity)))
  }

  lemma PageShows(rows: map<Id, Row>, filter: Item -> bool, mode: Mode, cursor: Option<Cursor>, most: nat, page: Page)
    requires IsPage(rows, filter, mode, cursor, most, page)
    ensures ShowsFirst(rows, filter, mode == UpdatedAsc, cursor, most, page)
  {
    hide Before, ComesFirst, After, IsShown, Qualifies;
    var items := page.items;
    var oldest := mode == UpdatedAsc;
    BeforeMeans(mode);
    forall e | Qualifies(rows, filter, oldest, cursor, e) ensures e in rows { QualifiesIsThere(rows, filter, oldest, cursor, e); }
    forall e | e in rows
      ensures Qualifies(rows, filter, oldest, cursor, e) <==> Listed(rows, filter, Item(e, rows[e])) && After(mode, cursor, Item(e, rows[e]))
      ensures Qualifies(rows, filter, oldest, cursor, e) ==> (IsShown(items, e) <==> Item(e, rows[e]) in items)
    {
      QualifiesMeans(rows, filter, mode, cursor, most, page, e);
    }
    forall i | 0 <= i < |items| ensures Qualifies(rows, filter, oldest, cursor, items[i].entity) && items[i].row == rows[items[i].entity] {
      assert items[i] in items && items[i] == Item(items[i].entity, rows[items[i].entity]);
    }
    if page.next.Some? {
      var i :| Listed(rows, filter, i) && After(mode, cursor, i) && i !in items;
      assert i == Item(i.entity, rows[i.entity]);
      assert Qualifies(rows, filter, oldest, cursor, i.entity) && !IsShown(items, i.entity);
    } else {
      forall e | Qualifies(rows, filter, oldest, cursor, e) ensures IsShown(items, e) {
        var i := Item(e, rows[e]);
        assert Listed(rows, filter, i) && After(mode, cursor, i);
      }
    }
    forall e | Qualifies(rows, filter, oldest, cursor, e) && !IsShown(items, e)
      ensures |items| == most && forall i :: 0 <= i < |items| ==>
        ComesFirst(oldest, items[i].row.createdAt, items[i].entity, rows[e].createdAt, e)
    {
      var x := Item(e, rows[e]);
      assert Listed(rows, filter, x) && After(mode, cursor, x) && x !in items;
    }
    ItemsInOrder(mode, items);
  }

  lemma BeforeMeans(mode: Mode)
    ensures forall a: Cursor, b: Cursor :: Before(mode, a, b) <==> ComesFirst(mode == UpdatedAsc, a.createdAt, a.entity, b.createdAt, b.entity)
  {
  }

  lemma ItemsInOrder(mode: Mode, items: seq<Item>)
    requires Ascending(items, ByTime(mode))
    ensures forall i, j :: 0 <= i < j < |items| ==>
      ComesFirst(mode == UpdatedAsc, items[i].row.createdAt, items[i].entity, items[j].row.createdAt, items[j].entity)
  {
    forall i, j | 0 <= i < j < |items|
      ensures ComesFirst(mode == UpdatedAsc, items[i].row.createdAt, items[i].entity, items[j].row.createdAt, items[j].entity)
    {
      assert ByTime(mode)(items[i], items[j]);
      TimesInOrder(mode, items[i], items[j]);
    }
  }

  lemma TimesInOrder(mode: Mode, a: Item, b: Item)
    requires ByTime(mode)(a, b)
    ensures ComesFirst(mode == UpdatedAsc, a.row.createdAt, a.entity, b.row.createdAt, b.entity)
  {
  }

  lemma QualifiesIsThere(rows: map<Id, Row>, filter: Item -> bool, oldestFirst: bool, cursor: Option<Cursor>, e: Id)
    requires Qualifies(rows, filter, oldestFirst, cursor, e)
    ensures e in rows
  {
  }

  lemma QualifiesMeans(rows: map<Id, Row>, filter: Item -> bool, mode: Mode, cursor: Option<Cursor>, most: nat, page: Page, e: Id)
    requires IsPage(rows, filter, mode, cursor, most, page) && e in rows
    ensures Qualifies(rows, filter, mode == UpdatedAsc, cursor, e) <==> Listed(rows, filter, Item(e, rows[e])) && After(mode, cursor, Item(e, rows[e]))
    ensures IsShown(page.items, e) <==> Item(e, rows[e]) in page.items
  {
    if IsShown(page.items, e) {
      var i :| 0 <= i < |page.items| && page.items[i].entity == e;
      assert page.items[i] in page.items;
    }
    if Item(e, rows[e]) in page.items {
      var i :| 0 <= i < |page.items| && page.items[i] == Item(e, rows[e]);
    }
  }

  lemma FirstOfMore(rows: map<Id, Row>, filter: Item -> bool, mode: Mode, cursor: Option<Cursor>, n: nat, items: seq<Item>)
    requires AreFirst(rows, filter, mode, cursor, n + 1, items)
    ensures
      var shown := if |items| > n then items[..n] else items;
      AreFirst(rows, filter, mode, cursor, n, shown) &&
      (|items| > n <==> exists i :: Listed(rows, filter, i) && After(mode, cursor, i) && i !in shown)
  {
    hide After, Listed, Key, Before;
    if |items| > n {
      var extra := items[n];
      BeforeStrict(mode, Key(extra));
      assert extra in items && extra !in items[..n];
      forall i | Listed(rows, filter, i) && After(mode, cursor, i) && i !in items[..n]
        ensures forall k :: 0 <= k < n ==> Before(mode, Key(items[k]), Key(i))
      {
        if i in items { assert i == items[n]; }
      }
    }
  }

  lemma BeforeStrict(mode: Mode, a: Cursor)
    ensures !Before(mode, a, a)
  {
  }

  /** A page holds exactly the listed items between its cursor and the next one. */
  lemma PageCovers(rows: map<Id, Row>, filter: Item -> bool, mode: Mode, cursor: Option<Cursor>, limit: nat, page: Page, i: Item)
    requires IsPage(rows, filter, mode, cursor, limit, page)
    ensures i in page.items <==>
      Listed(rows, filter, i) && After(mode, cursor, i) && (page.next.Some? ==> !After(mode, page.next, i))
  {
    if page.next.Some? {
      var last := page.items[|page.items| - 1];
      if i in page.items {
        var k :| 0 <= k < |page.items| && page.items[k] == i;
      } else if Listed(rows, filter, i) && After(mode, cursor, i) {
        assert Before(mode, Key(last), Key(i));
      }
    }
  }

  // ---------- a walk through all pages ----------

  function CursorAt(pages: seq<Page>, k: nat): Option<Cursor>
    requires k <= |pages|
  {
    if k == 0 then None else pages[k - 1].next
  }

  /** The pages that a client has got so far who follows the cursors. `tables[k]` is the table when
      page `k` is read. */
  ghost predicate IsWalkSoFar(tables: seq<map<Id, Row>>, filter: Item -> bool, mode: Mode, limit: nat, pages: seq<Page>) {
    |tables| == |pages| >= 1 && (forall k :: 0 <= k < |pages| - 1 ==> pages[k].next.Some?) &&
    forall k :: 0 <= k < |pages| ==> IsPage(tables[k], filter, mode, CursorAt(pages, k), limit, pages[k])
  }

  /** The client has reached the end. */
  ghost predicate IsWalk(tables: seq<map<Id, Row>>, filter: Item -> bool, mode: Mode, limit: nat, pages: seq<Page>) {
    IsWalkSoFar(tables, filter, mode, limit, pages) && pages[|pages| - 1].next.None?
  }

  lemma PageAt(tables: seq<map<Id, Row>>, filter: Item -> bool, mode: Mode, limit: nat, pages: seq<Page>, k: nat)
    requires IsWalk(tables, filter, mode, limit, pages) && k < |pages|
    ensures IsPage(tables[k], filter, mode, CursorAt(pages, k), limit, pages[k])
    ensures pages[k].next.Some? <==> k < |pages| - 1
  {
    hide IsPage;
  }

  /** What is after a later cursor is after every earlier one. */
  lemma {:induction false} CursorsAscend(tables: seq<map<Id, Row>>, filter: Item -> bool, mode: Mode, limit: nat, pages: seq<Page>, j: nat, k: nat, i: Item)
    requires IsWalk(tables, filter, mode, limit, pages) && j <= k < |pages| && After(mode, CursorAt(pages, k), i)
    ensures After(mode, CursorAt(pages, j), i)
    decreases k
  {
    hide IsPage, After;
    if j < k {
      NextIsAfter(tables[k - 1], filter, mode, CursorAt(pages, k - 1), limit, pages[k - 1], i);
      CursorsAscend(tables, filter, mode, limit, pages, j, k - 1, i);
    }
  }

  lemma NextIsAfter(rows: map<Id, Row>, filter: Item -> bool, mode: Mode, cursor: Option<Cursor>, limit: nat, page: Page, i: Item)
    requires IsPage(rows, filter, mode, cursor, limit, page) && page.next.Some? && After(mode, page.next, i)
    ensures After(mode, cursor, i)
  {
    assert page.items[|page.items| - 1] in page.items;
  }

  /** The last cursor that the item is after. */
  lemma {:induction false} PageOf(tables: seq<map<Id, Row>>, filter: Item -> bool, mode: Mode, limit: nat, pages: seq<Page>, n: nat, i: Item) returns (k: nat)
    requires IsWalk(tables, filter, mode, limit, pages) && 1 <= n <= |pages|
    requires n == |pages| || !After(mode, pages[n - 1].next, i)
    ensures k < n && After(mode, CursorAt(pages, k), i) && (pages[k].next.Some? ==> !After(mode, pages[k].next, i))
  {
    hide IsPage, After;
    k := n - 1;
    if n > 1 && !After(mode, CursorAt(pages, n - 1), i) {
      k := PageOf(tables, filter, mode, limit, pages, n - 1, i);
    } else if n == 1 {
      AfterNothing(mode, i);
    }
  }

  lemma AfterNothing(mode: Mode, i: Item)
    ensures After(mode, None, i)
  {
  }

  /** However the other profiles change between the pages, a profile that stays as it is through
      the whole walk is returned exactly once. */
  lemma UntouchedReturnedOnce(tables: seq<map<Id, Row>>, filter: Item -> bool, mode: Mode, limit: nat, pages: seq<Page>, x: Item)
    returns (k: nat, at: nat)
    requires IsWalk(tables, filter, mode, limit, pages)
    requires forall t :: 0 <= t < |tables| ==> Listed(tables[t], filter, x)
    ensures k < |pages| && at < |pages[k].items| && pages[k].items[at] == x
    ensures forall j, b :: 0 <= j < |pages| && 0 <= b < |pages[j].items| && pages[j].items[b].entity == x.entity ==> j == k && b == at
  {
    hide IsPage, After, IsWalk, Listed;
    WalkSizes(tables, filter, mode, limit, pages);
    k := PageOf(tables, filter, mode, limit, pages, |pages|, x);
    PageAt(tables, filter, mode, limit, pages, k);
    PageCovers(tables[k], filter, mode, CursorAt(pages, k), limit, pages[k], x);
    at :| 0 <= at < |pages[k].items| && pages[k].items[at] == x;
    forall j, b | 0 <= j < |pages| && 0 <= b < |pages[j].items| && pages[j].items[b].entity == x.entity
      ensures j == k && b == at
    {
      PageAt(tables, filter, mode, limit, pages, j);
      OnlyItem(tables[j], filter, mode, CursorAt(pages, j), limit, pages[j], b, x);
      PageCovers(tables[j], filter, mode, CursorAt(pages, j), limit, pages[j], x);
      if j < k { CursorsAscend(tables, filter, mode, limit, pages, j + 1, k, x); }
      if k < j { CursorsAscend(tables, filter, mode, limit, pages, k + 1, j, x); }
      OnePlace(tables[k], filter, mode, CursorAt(pages, k), limit, pages[k], b, at);
    }
  }

  lemma WalkSizes(tables: seq<map<Id, Row>>, filter: Item -> bool, mode: Mode, limit: nat, pages: seq<Page>)
    requires IsWalk(tables, filter, mode, limit, pages)
    ensures |tables| == |pages| >= 1
  {
  }

  lemma OnlyItem(rows: map<Id, Row>, filter: Item -> bool, mode: Mode, cursor: Option<Cursor>, limit: nat, page: Page, b: nat, x: Item)
    requires IsPage(rows, filter, mode, cursor, limit, page) && Listed(rows, filter, x)
    requires b < |page.items| && page.items[b].entity == x.entity
    ensures page.items[b] == x
  {
    assert page.items[b] in page.items;
  }

  lemma OnePlace(rows: map<Id, Row>, filter: Item -> bool, mode: Mode, cursor: Option<Cursor>, limit: nat, page: Page, a: nat, b: nat)
    requires IsPage(rows, filter, mode, cursor, limit, page) && a < |page.items| && b < |page.items| && page.items[a] == page.items[b]
    ensures a == b
  {
    BeforeStrict(mode, Key(page.items[a]));
  }

  // ---------- a walk ends ----------

  function AllItems(pages: seq<Page>): seq<Item> {
    if pages == [] then [] else AllItems(pages[..|pages| - 1]) + pages[|pages| - 1].items
  }

  lemma ItemsOfMore(pages: seq<Page>, n: nat)
    requires 0 < n <= |pages|
    ensures AllItems(pages[..n]) == AllItems(pages[..n - 1]) + pages[n - 1].items
  {
    assert pages[..n][..n - 1] == pages[..n - 1];
  }

  lemma NoItems(pages: seq<Page>)
    ensures AllItems(pages[..0]) == []
  {
  }

  /** Every page but the last is full. */
  lemma {:induction false} FullPages(tables: seq<map<Id, Row>>, filter: Item -> bool, mode: Mode, limit: nat, pages: seq<Page>, n: nat)
    requires IsWalkSoFar(tables, filter, mode, limit, pages) && n < |pages|
    ensures |AllItems(pages[..n])| == n * limit
  {
    hide IsPage, AllItems;
    if n > 0 {
      FullPages(tables, filter, mode, limit, pages, n - 1);
      ItemsOfMore(pages, n);
      FullPage(tables[n - 1], filter, mode, CursorAt(pages, n - 1), limit, pages[n - 1]);
      assert n * limit == (n - 1) * limit + limit;
    } else {
      NoItems(pages);
    }
  }

  lemma FullPage(rows: map<Id, Row>, filter: Item -> bool, mode: Mode, cursor: Option<Cursor>, limit: nat, page: Page)
    requires IsPage(rows, filter, mode, cursor, limit, page) && page.next.Some?
    ensures |page.items| == limit
  {
  }

  lemma JoinAscending(rows: map<Id, Row>, filter: Item -> bool, mode: Mode, cursor: Option<Cursor>, limit: nat, page: Page, before: seq<Item>)
    requires IsPage(rows, filter, mode, cursor, limit, page) && Ascending(before, ByTime(mode))
    requires forall i :: i in before ==> cursor.Some? && !After(mode, cursor, i)
    ensures Ascending(before + page.items, ByTime(mode))
  {
    forall a, b | a in before && b in page.items ensures Before(mode, Key(a), Key(b)) {
      assert !After(mode, cursor, a) && After(mode, cursor, b);
    }
    var both := before + page.items;
    forall i, j | 0 <= i < j < |both| ensures Before(mode, Key(both[i]), Key(both[j])) {
      if i < |before| <= j { assert both[i] in before && both[j] in page.items; }
    }
  }

  /** However the table changes, the items of the first `n` pages are in order, up to the cursor, and
      each was in the table when its page was read. */
  lemma {:induction false} PagesAscend(tables: seq<map<Id, Row>>, filter: Item -> bool, mode: Mode, limit: nat, pages: seq<Page>, n: nat)
    requires IsWalkSoFar(tables, filter, mode, limit, pages) && n < |pages|
    ensures Ascending(AllItems(pages[..n]), ByTime(mode))
    ensures forall i :: i in AllItems(pages[..n]) ==>
      CursorAt(pages, n).Some? && !After(mode, CursorAt(pages, n), i) && EverListed(tables, filter, i)
  {
    hide IsPage, AllItems, After, Listed, Ascending;
    if n > 0 {
      var page, cursor := pages[n - 1], CursorAt(pages, n - 1);
      PagesAscend(tables, filter, mode, limit, pages, n - 1);
      ItemsOfMore(pages, n);
      JoinAscending(tables[n - 1], filter, mode, cursor, limit, page, AllItems(pages[..n - 1]));
      forall i | i in AllItems(pages[..n]) ensures !After(mode, page.next, i) && EverListed(tables, filter, i) {
        if i in page.items {
          PageCovers(tables[n - 1], filter, mode, cursor, limit, page, i);
        } else if After(mode, page.next, i) {
          NextIsAfter(tables[n - 1], filter, mode, cursor, limit, page, i);
        }
      }
    } else {
      NoItems(pages);
      NothingAscends(mode);
    }
  }

  lemma NothingAscends(mode: Mode)
    ensures Ascending([], ByTime(mode))
  {
  }

  ghost predicate EverListed(tables: seq<map<Id, Row>>, filter: Item -> bool, i: Item) {
    exists k :: 0 <= k < |tables| && Listed(tables[k], filter, i)
  }

  lemma AscendingDistinct(mode: Mode, items: seq<Item>)
    requires Ascending(items, ByTime(mode))
    ensures Distinct(items)
  {
    forall i, j | 0 <= i < j < |items| ensures items[i] != items[j] {
      BeforeStrict(mode, Key(items[i]));
      assert ByTime(mode)(items[i], items[j]);
    }
  }

  /** Every walk ends when only finitely many rows come to be listed: a client that has another
      cursor after `n` pages has been given `n * limit` different rows. */
  lemma WalkEnds(tables: seq<map<Id, Row>>, filter: Item -> bool, mode: Mode, limit: nat, pages: seq<Page>, ever: set<Item>)
    requires IsWalkSoFar(tables, filter, mode, limit, pages)
    requires forall i :: EverListed(tables, filter, i) ==> i in ever
    ensures (|pages| - 1) * limit <= |ever|
  {
    hide AllItems, IsWalkSoFar, EverListed, Ascending;
    assert |pages| >= 1 by { WalkSoFarSizes(tables, filter, mode, limit, pages); }
    var n := |pages| - 1;
    var items := AllItems(pages[..n]);
    FullPages(tables, filter, mode, limit, pages, n);
    PagesAscend(tables, filter, mode, limit, pages, n);
    AscendingDistinct(mode, items);
    var elements := set i | i in items;
    DistinctCount(items, elements);
    SubsetIsSmaller(elements, ever);
  }

  lemma WalkSoFarSizes(tables: seq<map<Id, Row>>, filter: Item -> bool, mode: Mode, limit: nat, pages: seq<Page>)
    requires IsWalkSoFar(tables, filter, mode, limit, pages)
    ensures |tables| == |pages| >= 1
  {
  }

  // ---------- a walk over a table that does not change ----------

  ghost predicate IsWalkOver(rows: map<Id, Row>, filter: Item -> bool, mode: Mode, limit: nat, pages: seq<Page>) {
    IsWalk(seq(|pages|, _ => rows), filter, mode, limit, pages)
  }

  /** `items` are the listed ones that are not after the cursor; none without a cursor. */
  ghost predicate ReachTo(rows: map<Id, Row>, filter: Item -> bool, mode: Mode, cursor: Option<Cursor>, items: seq<Item>) {
    Ascending(items, ByTime(mode)) && forall i :: i in items <==> Listed(rows, filter, i) && cursor.Some? && !After(mode, cursor, i)
  }

  /** The first `n` pages are the listed items up to the cursor, in order. */
  lemma {:induction false} FirstPages(rows: map<Id, Row>, filter: Item -> bool, mode: Mode, limit: nat, pages: seq<Page>, n: nat)
    requires IsWalkOver(rows, filter, mode, limit, pages) && n < |pages|
    ensures ReachTo(rows, filter, mode, CursorAt(pages, n), AllItems(pages[..n]))
  {
    hide IsPage, ReachTo, AllItems, IsWalk;
    if n > 0 {
      var page, cursor := pages[n - 1], CursorAt(pages, n - 1);
      FirstPages(rows, filter, mode, limit, pages, n - 1);
      ItemsOfMore(pages, n);
      PageAt(seq(|pages|, _ => rows), filter, mode, limit, pages, n - 1);
      PageExtends(rows, filter, mode, cursor, limit, page, AllItems(pages[..n - 1]));
    } else {
      assert pages[..0] == [];
      NothingReached(rows, filter, mode);
    }
  }

  lemma NothingReached(rows: map<Id, Row>, filter: Item -> bool, mode: Mode)
    ensures ReachTo(rows, filter, mode, None, AllItems([]))
  {
  }

  lemma PageExtends(rows: map<Id, Row>, filter: Item -> bool, mode: Mode, cursor: Option<Cursor>, limit: nat, page: Page, before: seq<Item>)
    requires IsPage(rows, filter, mode, cursor, limit, page) && ReachTo(rows, filter, mode, cursor, before)
    ensures page.next.Some? ==> ReachTo(rows, filter, mode, page.next, before + page.items)
    ensures page.next.None? ==> Ascending(before + page.items, ByTime(mode)) && forall i :: i in before + page.items <==> Listed(rows, filter, i)
  {
    hide IsPage, After, Listed, Ascending;
    JoinAscending(rows, filter, mode, cursor, limit, page, before);
    forall i
      ensures i in before + page.items <==> Listed(rows, filter, i) && (page.next.Some? ==> !After(mode, page.next, i))
    {
      PageCovers(rows, filter, mode, cursor, limit, page, i);
      if page.next.Some? && After(mode, page.next, i) { NextIsAfter(rows, filter, mode, cursor, limit, page, i); }
      if cursor.None? { AfterNothing(mode, i); }
    }
  }

  lemma LastPage(rows: map<Id, Row>, filter: Item -> bool, mode: Mode, limit: nat, pages: seq<Page>)
    requires IsWalkOver(rows, filter, mode, limit, pages)
    ensures |pages[|pages| - 1].items| <= limit
    ensures |pages| > 1 ==> pages[|pages| - 1].items != []
  {
    var n := |pages| - 1;
    assert IsPage(rows, filter, mode, CursorAt(pages, n), limit, pages[n]);
    if n > 0 {
      assert IsPage(rows, filter, mode, CursorAt(pages, n - 1), limit, pages[n - 1]);
      var i :| Listed(rows, filter, i) && After(mode, CursorAt(pages, n - 1), i) && i !in pages[n - 1].items;
      PageCovers(rows, filter, mode, CursorAt(pages, n - 1), limit, pages[n - 1], i);
      PageCovers(rows, filter, mode, CursorAt(pages, n), limit, pages[n], i);
    }
  }

  lemma CountOfListing(rows: map<Id, Row>, filter: Item -> bool, mode: Mode, items: seq<Item>)
    requires Ascending(items, ByTime(mode)) && forall i :: i in items <==> Listed(rows, filter, i)
    ensures |items| == |Matching(rows, filter)|
  {
    hide Ascending;
    AscendingDistinct(mode, items);
    var entities := seq(|items|, k requires 0 <= k < |items| => items[k].entity);
    forall i, j | 0 <= i < j < |items| ensures items[i].entity != items[j].entity {
      assert items[i] in items && items[j] in items;
    }
    forall e ensures e in entities <==> e in Matching(rows, filter) {
      if e in entities {
        var i :| 0 <= i < |items| && entities[i] == e;
        assert items[i] in items;
      }
      if e in Matching(rows, filter) {
        assert Listed(rows, filter, Item(e, rows[e]));
        var i :| 0 <= i < |items| && items[i] == Item(e, rows[e]);
        assert entities[i] == e;
      }
    }
    DistinctCount(entities, Matching(rows, filter));
  }

  /** On a table that does not change, in both sort modes, the pages put together are all listed
      profiles in order, as many as a count gives, on ceil(n / limit) pages, or on one empty page. */
  lemma WalkListsEverything(rows: map<Id, Row>, filter: Item -> bool, mode: Mode, limit: nat, pages: seq<Page>)
    requires IsWalkOver(rows, filter, mode, limit, pages) && limit >= 1
    ensures
      var all := AllItems(pages);
      var n := |all|;
      Ascending(all, ByTime(mode)) && (forall i :: i in all <==> Listed(rows, filter, i)) &&
      n == |Matching(rows, filter)| &&
      (|pages| - 1) * limit < (if n == 0 then 1 else n) <= |pages| * limit
  {
    hide IsPage, Listed, After, AreFirst, AllItems, Matching, Ascending, IsWalk, IsWalkSoFar;
    WalkSizes(seq(|pages|, _ => rows), filter, mode, limit, pages);
    WalkIsListing(rows, filter, mode, limit, pages);
    CountOfListing(rows, filter, mode, AllItems(pages));
    WalkLength(rows, filter, mode, limit, pages);
    LastPage(rows, filter, mode, limit, pages);
    PageCount(|pages|, limit, |pages[|pages| - 1].items|);
  }

  lemma WalkIsListing(rows: map<Id, Row>, filter: Item -> bool, mode: Mode, limit: nat, pages: seq<Page>)
    requires IsWalkOver(rows, filter, mode, limit, pages)
    ensures Ascending(AllItems(pages), ByTime(mode)) && forall i :: i in AllItems(pages) <==> Listed(rows, filter, i)
  {
    hide IsPage, Listed, After, ReachTo, AreFirst, AllItems, Ascending;
    var m := |pages|;
    FirstPages(rows, filter, mode, limit, pages, m - 1);
    assert IsPage(rows, filter, mode, CursorAt(pages, m - 1), limit, pages[m - 1]);
    PageExtends(rows, filter, mode, CursorAt(pages, m - 1), limit, pages[m - 1], AllItems(pages[..m - 1]));
    ItemsOfMore(pages, m);
    assert pages[..m] == pages;
  }

  lemma WalkLength(rows: map<Id, Row>, filter: Item -> bool, mode: Mode, limit: nat, pages: seq<Page>)
    requires IsWalkOver(rows, filter, mode, limit, pages)
    ensures |pages| >= 1 && |AllItems(pages)| == (|pages| - 1) * limit + |pages[|pages| - 1].items|
  {
    hide IsPage, AllItems;
    var m := |pages|;
    FullPages(seq(m, _ => rows), filter, mode, limit, pages, m - 1);
    ItemsOfMore(pages, m);
    assert pages[..m] == pages;
  }

  lemma PageCount(pages: nat, limit: nat, last: nat)
    requires pages >= 1 && limit >= 1 && last <= limit && (pages > 1 ==> last > 0)
    ensures
      var n := (pages - 1) * limit + last;
      (pages - 1) * limit < (if n == 0 then 1 else n) <= pages * limit
  {
    assert pages * limit == (pages - 1) * limit + limit;
    if pages == 1 { assert (pages - 1) * limit == 0; }
  }
}
