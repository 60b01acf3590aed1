/** Keyset pagination on its own: pages cut from a changing table ordered by (rank, id) descending. */
module Keyset {
  import opened Prelude
  import opened Sequences

  datatype Key = Key(rank: nat, id: nat)

  /** A row: its rank in the order, and whatever else a filter may look at. */
  datatype Entry<D> = Entry(rank: nat, data: D)

  type Table<D> = map<nat, Entry<D>>

  predicate Below(a: Key, b: Key) {
    a.rank < b.rank || (a.rank == b.rank && a.id < b.id)
  }

  function KeyIn<D>(table: Table<D>, id: nat): Key
    requires id in table
  {
    Key(table[id].rank, id)
  }

  predicate BelowCursor(a: Key, cursor: Option<Key>) {
    cursor.None? || Below(a, cursor.value)
  }

  /** What the `WHERE` clauses keep. */
  function Selected<D>(table: Table<D>, keep: D -> bool, cursor: Option<Key>): set<nat> {
    set id <- table | keep(table[id].data) && BelowCursor(KeyIn(table, id), cursor) :: id
  }

  // ---------------------------------------------------------------- ORDER BY rank DESC, id DESC

  ghost predicate IsTop<D>(table: Table<D>, ids: set<nat>, top: nat)
    requires ids <= table.Keys
  {
    top in ids && forall id <- ids :: id != top ==> Below(KeyIn(table, id), KeyIn(table, top))
  }

  ghost function Top<D>(table: Table<D>, ids: set<nat>): (top: nat)
    requires ids != {} && ids <= table.Keys
    ensures IsTop(table, ids, top)
  {
    var some :| some in ids;
    assert ids == ids - {some} + {some};
    if ids - {some} == {} then some
    else
      var rest := Top(table, ids - {some});
      if Below(KeyIn(table, rest), KeyIn(table, some)) then some else rest
  }

  ghost function Ordered<D>(table: Table<D>, ids: set<nat>): (rows: seq<nat>)
    requires ids <= table.Keys
    ensures |rows| == |ids|
  {
    if ids == {} then []
    else
      var top := Top(table, ids);
      [top] + Ordered(table, ids - {top})
  }

  ghost predicate Falling<D>(table: Table<D>, rows: seq<nat>) {
    && (forall id <- rows :: id in table)
    && forall i, j :: 0 <= i < j < |rows| ==> Below(KeyIn(table, rows[j]), KeyIn(table, rows[i]))
  }

  lemma {:induction false} OrderedIsFalling<D>(table: Table<D>, ids: set<nat>)
    requires ids <= table.Keys
    ensures Falling(table, Ordered(table, ids))
    ensures forall id :: id in Ordered(table, ids) <==> id in ids
  {
    if ids != {} {
      OrderedIsFalling(table, ids - {Top(table, ids)});
    }
  }

  /** The falling order of a set of rows is unique. */
  lemma {:induction false} FallingIsUnique<D>(table: Table<D>, s: seq<nat>, t: seq<nat>)
    requires Falling(table, s) && Falling(table, t)
    requires forall id :: id in s <==> id in t
    ensures s == t
  {
    assert t == [] || t[0] in s;
    if s != [] {
      assert s[0] in t && t != [] && t[0] in s;
      var i :| 0 <= i < |t| && t[i] == s[0];
      var j :| 0 <= j < |s| && s[j] == t[0];
      assert s[0] == t[0];
      forall id ensures id in s[1..] <==> id in t[1..] {
        assert id in s <==> id == s[0] || id in s[1..];
        assert id in t <==> id == t[0] || id in t[1..];
      }
      FallingIsUnique(table, s[1..], t[1..]);
    }
  }

  // ---------------------------------------------------------------- a page

  /** One listed row: its id, and its key at the time of the listing. */
  datatype Item = Item(id: nat, key: Key)

  datatype Page = Page(items: seq<Item>, next: Option<Key>)

  ghost function ItemsOf<D>(table: Table<D>, ids: seq<nat>): (items: seq<Item>)
    requires forall id <- ids :: id in table
    ensures |items| == |ids|
  {
    seq(|ids|, i requires 0 <= i < |ids| => Item(ids[i], KeyIn(table, ids[i])))
  }

  /** One row too many is fetched, to see whether more follow. */
  ghost function PageOf<D>(table: Table<D>, ranked: seq<nat>, limit: nat): Page
    requires forall id <- ranked :: id in table
  {
    var rows := Take(ranked, limit + 1);
    var shown := Take(rows, limit);
    Page(ItemsOf(table, shown),
      if |rows| > limit && shown != [] then Some(KeyIn(table, shown[|shown| - 1])) else None)
  }

  ghost function PageBelow<D>(table: Table<D>, keep: D -> bool, cursor: Option<Key>, limit: nat): Page {
    OrderedIsFalling(table, Selected(table, keep, cursor));
    PageOf(table, Ordered(table, Selected(table, keep, cursor)), limit)
  }

  lemma PageShows<D>(table: Table<D>, ranked: seq<nat>, limit: nat)
    requires Falling(table, ranked)
    ensures
      var page := PageOf(table, ranked, limit);
      && |page.items| == (if limit <= |ranked| then limit else |ranked|)
      && (forall i :: 0 <= i < |page.items| ==> page.items[i] == Item(ranked[i], KeyIn(table, ranked[i])))
      && page.next == (if 0 < limit < |ranked| then Some(KeyIn(table, ranked[limit - 1])) else None)
  {
  }

  lemma RankedAreSelected<D>(table: Table<D>, keep: D -> bool, cursor: Option<Key>)
    ensures
      var ranked := Ordered(table, Selected(table, keep, cursor));
      && Falling(table, ranked)
      && forall i :: 0 <= i < |ranked| ==>
           ranked[i] in table && keep(table[ranked[i]].data) && BelowCursor(KeyIn(table, ranked[i]), cursor)
  {
    var ranked := Ordered(table, Selected(table, keep, cursor));
    OrderedIsFalling(table, Selected(table, keep, cursor));
    forall i | 0 <= i < |ranked| ensures ranked[i] in Selected(table, keep, cursor) { }
  }

  /** What a caller may rely on: distinct matching rows below the cursor, in falling order, under their keys. */
  lemma PageIsSound<D>(table: Table<D>, keep: D -> bool, cursor: Option<Key>, limit: nat)
    ensures
      var page := PageBelow(table, keep, cursor, limit);
      && (forall i :: 0 <= i < |page.items| ==>
            && page.items[i].id in table
            && keep(table[page.items[i].id].data)
            && page.items[i].key == KeyIn(table, page.items[i].id)
            && BelowCursor(page.items[i].key, cursor))
      && (forall i, j :: 0 <= i < j < |page.items| ==> Below(page.items[j].key, page.items[i].key))
      && (page.next.Some? ==> page.items != [] && page.next.value == page.items[|page.items| - 1].key)
  {
    RankedAreSelected(table, keep, cursor);
    PageShows(table, Ordered(table, Selected(table, keep, cursor)), limit);
    hide PageOf, Ordered, Selected;
  }

  /** Two tables whose selected rows are the same, data and all. */
  ghost predicate SameSelection<D>(a: Table<D>, b: Table<D>, keep: D -> bool) {
    forall id :: (id in a && keep(a[id].data) ==> id in b && b[id] == a[id]) && (id in b && keep(b[id].data) ==> id in a && a[id] == b[id])
  }

  lemma SameSelected<D>(a: Table<D>, b: Table<D>, keep: D -> bool, cursor: Option<Key>)
    requires SameSelection(a, b, keep)
    ensures Selected(a, keep, cursor) == Selected(b, keep, cursor)
    ensures forall id <- Selected(a, keep, cursor) :: a[id] == b[id]
  {
  }

  /** The order of rows depends on their own keys only. */
  lemma OrderedAlike<D>(a: Table<D>, b: Table<D>, ids: set<nat>)
    requires ids <= a.Keys && ids <= b.Keys && forall id <- ids :: a[id] == b[id]
    ensures Ordered(a, ids) == Ordered(b, ids)
  {
    OrderedIsFalling(a, ids);
    OrderedIsFalling(b, ids);
    var s, t := Ordered(a, ids), Ordered(b, ids);
    forall i | 0 <= i < |t| ensures t[i] in ids { assert t[i] in t; }
    assert Falling(a, t);
    FallingIsUnique(a, s, t);
  }

  lemma PageOfAlike<D>(a: Table<D>, b: Table<D>, ranked: seq<nat>, limit: nat)
    requires Falling(a, ranked) && Falling(b, ranked) && forall id <- ranked :: a[id] == b[id]
    ensures PageOf(a, ranked, limit) == PageOf(b, ranked, limit)
  {
    var p, q := PageOf(a, ranked, limit), PageOf(b, ranked, limit);
    PageShows(a, ranked, limit);
    PageShows(b, ranked, limit);
    assert forall i :: 0 <= i < |p.items| ==> a[ranked[i]] == b[ranked[i]];
    assert p.items == q.items;
  }

  /** Rows that are not selected never show in a page. */
  lemma PageAlike<D>(a: Table<D>, b: Table<D>, keep: D -> bool, cursor: Option<Key>, limit: nat)
    requires SameSelection(a, b, keep)
    ensures PageBelow(a, keep, cursor, limit) == PageBelow(b, keep, cursor, limit)
  {
    hide PageOf;
    SameSelected(a, b, keep, cursor);
    var ids := Selected(a, keep, cursor);
    OrderedAlike(a, b, ids);
    OrderedIsFalling(a, ids);
    OrderedIsFalling(b, ids);
    hide Falling, SameSelection;
    PageOfAlike(a, b, Ordered(a, ids), limit);
  }

  predicate Shows(page: Page, id: nat) {
    exists i :: 0 <= i < |page.items| && page.items[i].id == id
  }

  /** A selected row is on the page, or it lies below the next cursor. */
  lemma PageCovers<D>(table: Table<D>, keep: D -> bool, cursor: Option<Key>, limit: nat, id: nat)
    requires limit > 0 && id in Selected(table, keep, cursor)
    ensures
      var page := PageBelow(table, keep, cursor, limit);
      Shows(page, id) || (page.next.Some? && Below(KeyIn(table, id), page.next.value))
  {
    var ranked := Ordered(table, Selected(table, keep, cursor));
    var page := PageBelow(table, keep, cursor, limit);
    OrderedIsFalling(table, Selected(table, keep, cursor));
    PageShows(table, ranked, limit);
    var k :| 0 <= k < |ranked| && ranked[k] == id;
    if k < limit {
      assert page.items[k].id == id;
    }
  }

  // ---------------------------------------------------------------- a walk over a changing table

  /** Following next cursors, one snapshot of the table per page; it stops when there is no next cursor. */
  ghost function Walk<D>(tables: seq<Table<D>>, keep: D -> bool, cursor: Option<Key>, limit: nat): seq<Page> {
    if tables == [] then []
    else
      var page := PageBelow(tables[0], keep, cursor, limit);
      [page] + if page.next.None? then [] else Walk(tables[1..], keep, page.next, limit)
  }

  ghost predicate Complete(pages: seq<Page>) {
    pages != [] && pages[|pages| - 1].next.None?
  }

  function Listed(pages: seq<Page>): seq<Item> {
    if pages == [] then [] else pages[0].items + Listed(pages[1..])
  }

  /** Writes between two snapshots insert rows or rewrite rows without lowering their rank. */
  ghost predicate Advances<D>(before: Table<D>, after: Table<D>) {
    forall id <- before :: id in after && before[id].rank <= after[id].rank
  }

  ghost predicate Advancing<D>(tables: seq<Table<D>>) {
    forall i :: 0 <= i < |tables| - 1 ==> Advances(tables[i], tables[i + 1])
  }

  ghost predicate DistinctFalling(items: seq<Item>) {
    forall i, j :: 0 <= i < j < |items| ==> Below(items[j].key, items[i].key) && items[i].id != items[j].id
  }

  lemma AdvancesTransitive<D>(a: Table<D>, b: Table<D>, c: Table<D>)
    requires Advances(a, b) && Advances(b, c)
    ensures Advances(a, c)
  {
  }

  ghost predicate AllBelow(items: seq<Item>, cursor: Option<Key>) {
    forall i :: 0 <= i < |items| ==> BelowCursor(items[i].key, cursor)
  }

  /** Every listed key carries the row's id and, where `origin` has the row, no lower a rank than there. */
  ghost predicate NotBefore<D>(items: seq<Item>, origin: Table<D>) {
    forall i :: 0 <= i < |items| ==>
      && items[i].key.id == items[i].id
      && (items[i].id in origin ==> origin[items[i].id].rank <= items[i].key.rank)
  }

  lemma {:induction false} JoinFalls<D>(items: seq<Item>, rest: seq<Item>, table: Table<D>)
    requires items != [] && DistinctFalling(items) && DistinctFalling(rest)
    requires AllBelow(rest, Some(items[|items| - 1].key)) && NotBefore(rest, table)
    requires forall i :: 0 <= i < |items| ==> items[i].id in table && items[i].key == KeyIn(table, items[i].id)
    ensures DistinctFalling(items + rest)
  {
    var all, last := items + rest, items[|items| - 1].key;
    forall i, j | 0 <= i < j < |all| ensures Below(all[j].key, all[i].key) && all[i].id != all[j].id {
      if i < |items| <= j {
        assert all[j] == rest[j - |items|];
        assert Below(all[j].key, last);
        assert i == |items| - 1 || Below(last, items[i].key);
      } else if |items| <= i {
        assert all[i] == rest[i - |items|] && all[j] == rest[j - |items|];
      }
    }
  }

  /** A page's items are keyed by the table it was cut from. */
  ghost predicate KeyedBy<D>(items: seq<Item>, table: Table<D>) {
    forall i :: 0 <= i < |items| ==> items[i].id in table && items[i].key == KeyIn(table, items[i].id)
  }

  lemma PageFalls<D>(table: Table<D>, keep: D -> bool, cursor: Option<Key>, limit: nat)
    ensures
      var page := PageBelow(table, keep, cursor, limit);
      && DistinctFalling(page.items) && AllBelow(page.items, cursor) && KeyedBy(page.items, table)
      && (page.next.Some? ==> page.items != [] && page.next.value == page.items[|page.items| - 1].key)
  {
    PageIsSound(table, keep, cursor, limit);
  }

  lemma KeyedNotBefore<D>(items: seq<Item>, table: Table<D>, origin: Table<D>)
    requires KeyedBy(items, table) && Advances(origin, table)
    ensures NotBefore(items, origin)
  {
  }

  /** A page followed by what lies below its last row. */
  lemma {:induction false} StepFalls<D>(items: seq<Item>, rest: seq<Item>, table: Table<D>, origin: Table<D>, cursor: Option<Key>)
    requires items != [] && DistinctFalling(items) && AllBelow(items, cursor) && KeyedBy(items, table)
    requires Advances(origin, table)
    requires DistinctFalling(rest) && AllBelow(rest, Some(items[|items| - 1].key))
    requires NotBefore(rest, table) && NotBefore(rest, origin)
    ensures DistinctFalling(items + rest) && AllBelow(items + rest, cursor) && NotBefore(items + rest, origin)
  {
    JoinFalls(items, rest, table);
    KeyedNotBefore(items, table, origin);
    var last := items[|items| - 1].key;
    forall i | 0 <= i < |rest| ensures BelowCursor(rest[i].key, cursor) {
      assert Below(rest[i].key, last) && BelowCursor(last, cursor);
    }
  }

  lemma WalkLists<D>(tables: seq<Table<D>>, keep: D -> bool, cursor: Option<Key>, limit: nat)
    requires tables != []
    ensures
      var page := PageBelow(tables[0], keep, cursor, limit);
      && Walk(tables, keep, cursor, limit)
           == [page] + (if page.next.None? then [] else Walk(tables[1..], keep, page.next, limit))
      && Listed(Walk(tables, keep, cursor, limit))
           == if page.next.None? then page.items else page.items + Listed(Walk(tables[1..], keep, page.next, limit))
  {
    hide PageBelow;
    var page := PageBelow(tables[0], keep, cursor, limit);
    if page.next.None? {
      assert Listed([page]) == page.items + Listed([]) == page.items;
    } else {
      var rest := Walk(tables[1..], keep, page.next, limit);
      assert ([page] + rest)[1..] == rest;
    }
  }

  lemma AdvancingTail<D>(tables: seq<Table<D>>)
    requires tables != [] && Advancing(tables)
    ensures Advancing(tables[1..]) && (|tables| > 1 ==> Advances(tables[0], tables[1]))
  {
  }

  /**
    * All that a walk lists lies below its cursor, in strictly falling key order, without a row listed twice;
    * and no row is listed under a lower key than it had in a table before the walk.
    */
  lemma {:induction false} WalkFalls<D>(tables: seq<Table<D>>, keep: D -> bool, cursor: Option<Key>, limit: nat, origin: Table<D>)
    requires Advancing(tables)
    requires tables != [] ==> Advances(origin, tables[0])
    ensures
      var items := Listed(Walk(tables, keep, cursor, limit));
      DistinctFalling(items) && AllBelow(items, cursor) && NotBefore(items, origin)
  {
    if tables != [] {
      hide PageBelow, Below, Advances, Advancing, DistinctFalling, AllBelow, NotBefore, KeyedBy, BelowCursor, Walk, Listed;
      var page := PageBelow(tables[0], keep, cursor, limit);
      WalkLists(tables, keep, cursor, limit);
      PageFalls(tables[0], keep, cursor, limit);
      AdvancingTail(tables);
      if page.next.None? {
        KeyedNotBefore(page.items, tables[0], origin);
      } else {
        if |tables| > 1 { AdvancesTransitive(origin, tables[0], tables[1]); }
        WalkFalls(tables[1..], keep, page.next, limit, origin);
        WalkFalls(tables[1..], keep, page.next, limit, tables[0]);
        StepFalls(page.items, Listed(Walk(tables[1..], keep, page.next, limit)), tables[0], origin, cursor);
      }
    }
  }

  ghost predicate Untouched<D>(tables: seq<Table<D>>, id: nat, entry: Entry<D>) {
    forall i :: 0 <= i < |tables| ==> id in tables[i] && tables[i][id] == entry
  }

  predicate ListsId(items: seq<Item>, id: nat) {
    exists i :: 0 <= i < |items| && items[i].id == id
  }

  ghost predicate ListedOnce(items: seq<Item>, id: nat) {
    exists i :: 0 <= i < |items| && items[i].id == id && forall j :: 0 <= j < |items| && items[j].id == id ==> j == i
  }

  lemma ListsAppend(a: seq<Item>, b: seq<Item>, id: nat)
    ensures ListsId(a + b, id) <==> ListsId(a, id) || ListsId(b, id)
  {
    if ListsId(a, id) {
      var i :| 0 <= i < |a| && a[i].id == id;
      assert (a + b)[i].id == id;
    }
    if ListsId(b, id) {
      var i :| 0 <= i < |b| && b[i].id == id;
      assert (a + b)[|a| + i].id == id;
    }
  }

  // ---------------------------------------------------------------- a walk ends

  lemma FullUnlessLast<D>(table: Table<D>, keep: D -> bool, cursor: Option<Key>, limit: nat)
    ensures PageBelow(table, keep, cursor, limit).next.Some? ==> |PageBelow(table, keep, cursor, limit).items| == limit
  {
    OrderedIsFalling(table, Selected(table, keep, cursor));
    PageShows(table, Ordered(table, Selected(table, keep, cursor)), limit);
  }

  lemma CompleteCons(first: Page, rest: seq<Page>)
    requires Complete(rest)
    ensures Complete([first] + rest)
  {
  }

  lemma LastPageCompletes(page: Page)
    requires page.next.None?
    ensures Complete([page])
  {
  }

  lemma Stride(n: nat, limit: nat)
    requires n > 0
    ensures n * limit == limit + (n - 1) * limit
  {
  }

  /** A walk that is not complete has cut one full page from every table. */
  lemma {:induction false} UnfinishedWalkIsFull<D>(tables: seq<Table<D>>, keep: D -> bool, cursor: Option<Key>, limit: nat)
    ensures Complete(Walk(tables, keep, cursor, limit)) || |Listed(Walk(tables, keep, cursor, limit))| == |tables| * limit
  {
    if tables != [] {
      hide PageBelow, Listed, Complete, Walk;
      var page := PageBelow(tables[0], keep, cursor, limit);
      FullUnlessLast(tables[0], keep, cursor, limit);
      WalkLists(tables, keep, cursor, limit);
      if page.next.Some? {
        var rest := Walk(tables[1..], keep, page.next, limit);
        UnfinishedWalkIsFull(tables[1..], keep, page.next, limit);
        if Complete(rest) { CompleteCons(page, rest); } else { Stride(|tables|, limit); }
      } else {
        LastPageCompletes(page);
      }
    } else {
      NoTables(keep, cursor, limit);
    }
  }

  lemma {:induction false} RowsStay<D>(tables: seq<Table<D>>, id: nat)
    requires tables != [] && Advancing(tables) && id in tables[0]
    ensures id in tables[|tables| - 1]
  {
    if |tables| > 1 {
      AdvancingTail(tables);
      RowsStay(tables[1..], id);
    }
  }

  ghost predicate ListsFrom(items: seq<Item>, ids: set<nat>) {
    forall i :: 0 <= i < |items| ==> items[i].id in ids
  }

  /** Whatever a walk lists is still a row of the last table. */
  lemma {:induction false} ListedRowsStay<D>(tables: seq<Table<D>>, keep: D -> bool, cursor: Option<Key>, limit: nat)
    requires tables != [] && Advancing(tables)
    ensures ListsFrom(Listed(Walk(tables, keep, cursor, limit)), tables[|tables| - 1].Keys)
  {
    hide PageBelow, Walk, Listed, DistinctFalling, AllBelow, Advancing;
    var page := PageBelow(tables[0], keep, cursor, limit);
    PageFalls(tables[0], keep, cursor, limit);
    WalkLists(tables, keep, cursor, limit);
    forall i | 0 <= i < |page.items| ensures page.items[i].id in tables[|tables| - 1] {
      RowsStay(tables, page.items[i].id);
    }
    if page.next.Some? {
      AdvancingTail(tables);
      if |tables| > 1 {
        ListedRowsStay(tables[1..], keep, page.next, limit);
      } else {
        assert tables[1..] == [];
        NoTables(keep, page.next, limit);
      }
    }
  }

  lemma NoTables<D>(keep: D -> bool, cursor: Option<Key>, limit: nat)
    ensures Listed(Walk<D>([], keep, cursor, limit)) == []
  {
  }

  lemma {:induction false} DistinctRowsFit(items: seq<Item>, ids: set<nat>)
    requires DistinctFalling(items) && ListsFrom(items, ids)
    ensures |items| <= |ids|
  {
    if items != [] {
      var n := |items| - 1;
      DistinctRowsFit(items[..n], ids - {items[n].id});
    }
  }

  /**
    * Paging ends under change too: among as many snapshots as it takes for full pages to hold more than the
    * last table's rows, one page is the last.
    */
  lemma WalkEnds<D>(tables: seq<Table<D>>, keep: D -> bool, cursor: Option<Key>, limit: nat)
    requires tables != [] && Advancing(tables) && |tables| * limit > |tables[|tables| - 1]|
    ensures Complete(Walk(tables, keep, cursor, limit))
  {
    hide Walk, Listed, DistinctFalling, AllBelow, NotBefore, Advancing, ListsFrom, Complete;
    var last := tables[|tables| - 1];
    UnfinishedWalkIsFull(tables, keep, cursor, limit);
    ListedRowsStay(tables, keep, cursor, limit);
    AdvancesToFirst(tables);
    WalkFalls(tables, keep, cursor, limit, map[]);
    DistinctRowsFit(Listed(Walk(tables, keep, cursor, limit)), last.Keys);
    assert |last.Keys| == |last|;
  }

  lemma AdvancesToFirst<D>(tables: seq<Table<D>>)
    requires tables != []
    ensures Advances(map[], tables[0])
  {
  }

  // ---------------------------------------------------------------- what a walk lists

  /** A complete walk lists every matching row below its cursor that nobody touches while it lasts. */
  lemma {:induction false} WalkCovers<D>(tables: seq<Table<D>>, keep: D -> bool, cursor: Option<Key>, limit: nat,
                                         id: nat, entry: Entry<D>)
    requires limit > 0
    requires Complete(Walk(tables, keep, cursor, limit))
    requires Untouched(tables, id, entry) && keep(entry.data) && BelowCursor(Key(entry.rank, id), cursor)
    ensures ListsId(Listed(Walk(tables, keep, cursor, limit)), id)
  {
    var page := PageBelow(tables[0], keep, cursor, limit);
    var rest := if page.next.None? then [] else Walk(tables[1..], keep, page.next, limit);
    var pages := Walk(tables, keep, cursor, limit);
    assert pages == [page] + rest && pages[1..] == rest;
    PageCovers(tables[0], keep, cursor, limit, id);
    ListsAppend(page.items, Listed(rest), id);
    if !Shows(page, id) {
      assert rest != [] by { assert pages[|pages| - 1].next.None?; }
      assert rest[|rest| - 1] == pages[|pages| - 1];
      WalkCovers(tables[1..], keep, page.next, limit, id, entry);
    }
  }

  /**
    * Pagination under change. While rows are inserted and ranks are raised between pages, a complete walk
    * from the top lists every matching row that stays untouched exactly once, lists no row twice, and its
    * keys strictly fall.
    */
  lemma WalkUnderChange<D>(tables: seq<Table<D>>, keep: D -> bool, limit: nat)
    requires limit > 0 && Advancing(tables)
    requires Complete(Walk(tables, keep, None, limit))
    ensures
      var items := Listed(Walk(tables, keep, None, limit));
      && DistinctFalling(items)
      && forall id, entry :: Untouched(tables, id, entry) && keep(entry.data) ==> ListedOnce(items, id)
  {
    var items := Listed(Walk(tables, keep, None, limit));
    WalkFalls(tables, keep, None, limit, map[]);
    forall id, entry | Untouched(tables, id, entry) && keep(entry.data)
      ensures ListedOnce(items, id)
    {
      WalkCovers(tables, keep, None, limit, id, entry);
      var i :| 0 <= i < |items| && items[i].id == id;
      forall j | 0 <= j < |items| && items[j].id == id ensures j == i { assert j < i || i < j || i == j; }
    }
  }

  // ---------------------------------------------------------------- a fixed table

  /** The rows below the key of row `limit - 1` of a falling list are the rows after it. */
  lemma {:induction false} BelowIsTail<D>(table: Table<D>, ranked: seq<nat>, limit: nat, id: nat)
    requires Falling(table, ranked) && 0 < limit < |ranked|
    ensures id in ranked[limit..] <==> id in ranked && Below(KeyIn(table, id), KeyIn(table, ranked[limit - 1]))
  {
    if id in ranked {
      var k :| 0 <= k < |ranked| && ranked[k] == id;
      if k >= limit {
        assert ranked[limit..][k - limit] == id;
      }
    }
  }

  lemma {:induction false} SelectedLater<D>(table: Table<D>, keep: D -> bool, cursor: Option<Key>, next: Key, id: nat)
    requires BelowCursor(next, cursor)
    ensures id in Selected(table, keep, Some(next)) <==>
      id in Selected(table, keep, cursor) && Below(KeyIn(table, id), next)
  {
  }

  /** Every page with a next cursor leaves exactly the rows after it to list. */
  lemma {:induction false} FewerRowsLeft<D>(table: Table<D>, keep: D -> bool, cursor: Option<Key>, limit: nat)
    requires PageBelow(table, keep, cursor, limit).next.Some?
    ensures
      var next := PageBelow(table, keep, cursor, limit).next;
      && 0 < limit < |Selected(table, keep, cursor)|
      && |Selected(table, keep, next)| + limit == |Selected(table, keep, cursor)|
      && Ordered(table, Selected(table, keep, next)) == Ordered(table, Selected(table, keep, cursor))[limit..]
  {
    var ranked := Ordered(table, Selected(table, keep, cursor));
    OrderedIsFalling(table, Selected(table, keep, cursor));
    PageShows(table, ranked, limit);
    var next := KeyIn(table, ranked[limit - 1]);
    assert PageBelow(table, keep, cursor, limit).next == Some(next);
    assert ranked[limit - 1] in Selected(table, keep, cursor);
    var later := Selected(table, keep, Some(next));
    OrderedIsFalling(table, later);
    forall id ensures id in ranked[limit..] <==> id in Ordered(table, later) {
      BelowIsTail(table, ranked, limit, id);
      SelectedLater(table, keep, cursor, next, id);
    }
    TailFalls(table, ranked, limit);
    FallingIsUnique(table, Ordered(table, later), ranked[limit..]);
  }

  lemma TailFalls<D>(table: Table<D>, ranked: seq<nat>, limit: nat)
    requires Falling(table, ranked) && limit <= |ranked|
    ensures Falling(table, ranked[limit..])
  {
  }

  /** The termination measure of a walk over a fixed table. */
  lemma Shrinks<D>(table: Table<D>, keep: D -> bool, cursor: Option<Key>, limit: nat)
    requires PageBelow(table, keep, cursor, limit).next.Some?
    ensures |Selected(table, keep, PageBelow(table, keep, cursor, limit).next)| < |Selected(table, keep, cursor)|
  {
    FewerRowsLeft(table, keep, cursor, limit);
  }

  /** The whole walk over a table nobody changes. */
  ghost function FixedWalk<D>(table: Table<D>, keep: D -> bool, cursor: Option<Key>, limit: nat): seq<Page>
    requires limit > 0
    decreases |Selected(table, keep, cursor)|
  {
    var page := PageBelow(table, keep, cursor, limit);
    if page.next.None? then [page]
    else
      Shrinks(table, keep, cursor, limit);
      [page] + FixedWalk(table, keep, page.next, limit)
  }

  ghost predicate ListsRows(items: seq<Item>, rows: seq<nat>) {
    |items| == |rows| && forall i :: 0 <= i < |rows| ==> items[i].id == rows[i]
  }

  lemma ListsRowsAppend(items: seq<Item>, rest: seq<Item>, rows: seq<nat>, limit: nat)
    requires limit <= |rows| && ListsRows(items, rows[..limit]) && ListsRows(rest, rows[limit..])
    ensures ListsRows(items + rest, rows)
  {
    forall i | 0 <= i < |rows| ensures (items + rest)[i].id == rows[i] {
      if i >= limit { assert (items + rest)[i] == rest[i - limit] && rows[limit..][i - limit] == rows[i]; }
    }
  }

  /** As many pages as it takes to hold the rows, one if there are none. */
  predicate PageCount(pages: nat, rows: nat, limit: nat) {
    if rows <= limit then pages == 1 else pages > 1 && PageCount(pages - 1, if limit == 0 then 0 else rows - limit, limit)
  }

  lemma PageListsRanked<D>(table: Table<D>, ranked: seq<nat>, limit: nat)
    requires Falling(table, ranked)
    ensures
      var page := PageOf(table, ranked, limit);
      && (page.next.None? && limit > 0 ==> |ranked| <= limit && ListsRows(page.items, ranked))
      && (page.next.Some? ==> limit < |ranked| && ListsRows(page.items, ranked[..limit]))
  {
    PageShows(table, ranked, limit);
    hide PageOf, Falling;
  }

  lemma PageListsFirst<D>(table: Table<D>, keep: D -> bool, cursor: Option<Key>, limit: nat)
    ensures
      var page, rows := PageBelow(table, keep, cursor, limit), Ordered(table, Selected(table, keep, cursor));
      && (page.next.None? && limit > 0 ==> |rows| <= limit && ListsRows(page.items, rows))
      && (page.next.Some? ==> limit < |rows| && ListsRows(page.items, rows[..limit]))
  {
    hide PageOf, Ordered, Falling, ListsRows;
    OrderedIsFalling(table, Selected(table, keep, cursor));
    PageListsRanked(table, Ordered(table, Selected(table, keep, cursor)), limit);
  }

  /** On a fixed table the concatenated pages are the filtered table in falling order. */
  lemma {:induction false} FixedWalkIsSortedTable<D>(table: Table<D>, keep: D -> bool, cursor: Option<Key>, limit: nat)
    requires limit > 0
    ensures ListsRows(Listed(FixedWalk(table, keep, cursor, limit)), Ordered(table, Selected(table, keep, cursor)))
    decreases |Selected(table, keep, cursor)|
  {
    var page := PageBelow(table, keep, cursor, limit);
    PageListsFirst(table, keep, cursor, limit);
    if page.next.None? {
      assert Listed([page]) == page.items + Listed([]) == page.items;
    } else {
      FewerRowsLeft(table, keep, cursor, limit);
      FixedWalkIsSortedTable(table, keep, page.next, limit);
      var rest := FixedWalk(table, keep, page.next, limit);
      assert ([page] + rest)[1..] == rest;
      ListsRowsAppend(page.items, Listed(rest), Ordered(table, Selected(table, keep, cursor)), limit);
    }
  }

  lemma {:induction false} FixedWalkPageCount<D>(table: Table<D>, keep: D -> bool, cursor: Option<Key>, limit: nat)
    requires limit > 0
    ensures PageCount(|FixedWalk(table, keep, cursor, limit)|, |Selected(table, keep, cursor)|, limit)
    decreases |Selected(table, keep, cursor)|
  {
    var page := PageBelow(table, keep, cursor, limit);
    PageListsFirst(table, keep, cursor, limit);
    hide PageBelow, Ordered, Selected, ListsRows;
    if page.next.Some? {
      FewerRowsLeft(table, keep, cursor, limit);
      FixedWalkPageCount(table, keep, page.next, limit);
    }
  }

  lemma {:induction false} PagesFit(pages: nat, rows: nat, limit: nat, n: nat)
    requires PageCount(pages, rows, limit) && limit > 0 && n * limit > rows
    ensures pages <= n
    decreases rows
  {
    if n > 0 && rows > limit {
      Stride(n, limit);
      PagesFit(pages - 1, rows - limit, limit, n - 1);
    }
  }

  /** That many pages is the number of rows divided by the page size, rounded up. */
  lemma {:induction false} PageCountIsCeiling(pages: nat, rows: nat, limit: nat)
    requires limit > 0 && PageCount(pages, rows, limit)
    ensures pages >= 1 && rows <= pages * limit && (rows > 0 ==> (pages - 1) * limit < rows)
    decreases rows
  {
    if rows > limit {
      PageCountIsCeiling(pages - 1, rows - limit, limit);
      assert pages * limit == (pages - 1) * limit + limit;
      assert (pages - 1) * limit == (pages - 2) * limit + limit;
    }
  }
}
