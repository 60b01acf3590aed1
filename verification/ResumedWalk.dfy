/** Paging by opaque cursors: each request carries the text the previous response returned. */
module ResumedWalk {
  import opened Prelude
  import opened Keyset

  /** How a response prints the position of its last row, and how a request reads it back. */
  datatype Codec<!D> = Codec(encode: (nat, D) -> string, decode: string -> Option<Key>)

  /** Every row's cursor is a non-empty text that reads back as the row's key. */
  ghost predicate FaithfulOn<D>(codec: Codec<D>, table: Table<D>) {
    forall id <- table ::
      codec.decode(codec.encode(id, table[id].data)) == Some(KeyIn(table, id)) && codec.encode(id, table[id].data) != ""
  }

  ghost predicate FaithfulThroughout<D>(codec: Codec<D>, tables: seq<Table<D>>) {
    forall i :: 0 <= i < |tables| ==> FaithfulOn(codec, tables[i])
  }

  datatype Listing = Listing(items: seq<Item>, next: Option<string>)

  /** An empty cursor counts as none; one that cannot be read is an error. */
  function Position<D>(codec: Codec<D>, cursor: Option<string>): Option<Option<Key>> {
    if cursor.None? || cursor.value == "" then Some(None)
    else
      match codec.decode(cursor.value)
      case None => None
      case Some(key) => Some(Some(key))
  }

  ghost function List<D>(codec: Codec<D>, table: Table<D>, keep: D -> bool, cursor: Option<string>, limit: nat): Option<Listing> {
    match Position(codec, cursor)
    case None => None
    case Some(key) =>
      PageIsSound(table, keep, key, limit);
      var page := PageBelow(table, keep, key, limit);
      Some(Listing(page.items,
        if page.next.None? then None
        else
          var last := page.items[|page.items| - 1].id;
          Some(codec.encode(last, table[last].data))))
  }

  /** A listing depends on the selected rows only. */
  lemma ListingAlike<D>(codec: Codec<D>, a: Table<D>, b: Table<D>, keep: D -> bool, cursor: Option<string>, limit: nat)
    requires SameSelection(a, b, keep)
    ensures List(codec, a, keep, cursor, limit) == List(codec, b, keep, cursor, limit)
  {
    hide PageBelow, Below;
    var position := Position(codec, cursor);
    if position.Some? {
      PageAlike(a, b, keep, position.value, limit);
      PageIsSound(a, keep, position.value, limit);
      var page := PageBelow(a, keep, position.value, limit);
      if page.next.Some? {
        var last := page.items[|page.items| - 1].id;
        assert keep(a[last].data) && b[last] == a[last];
      }
    }
  }

  /** Every row of a listing is a row of the table, under its key, that the filter keeps. */
  lemma ListingIsSound<D>(codec: Codec<D>, table: Table<D>, keep: D -> bool, cursor: Option<string>, limit: nat, k: nat)
    requires List(codec, table, keep, cursor, limit).Some? && k < |List(codec, table, keep, cursor, limit).value.items|
    ensures
      var item := List(codec, table, keep, cursor, limit).value.items[k];
      item.id in table && keep(table[item.id].data) && item.key == KeyIn(table, item.id)
  {
    hide PageBelow, Below;
    PageIsSound(table, keep, Position(codec, cursor).value, limit);
  }

  /** A listing is the keyset page, and its next cursor stands for the page's next key. */
  lemma ListingIsPage<D>(codec: Codec<D>, table: Table<D>, keep: D -> bool, cursor: Option<string>, limit: nat)
    requires FaithfulOn(codec, table) && Position(codec, cursor).Some?
    ensures
      var page := PageBelow(table, keep, Position(codec, cursor).value, limit);
      var listing := List(codec, table, keep, cursor, limit);
      && listing.Some?
      && listing.value.items == page.items
      && (listing.value.next.None? <==> page.next.None?)
      && Position(codec, listing.value.next) == Some(page.next)
  {
    PageIsSound(table, keep, Position(codec, cursor).value, limit);
  }

  /** Asking for page after page with the cursor just received, one snapshot of the table per page. */
  ghost function Walk<D>(codec: Codec<D>, tables: seq<Table<D>>, keep: D -> bool, cursor: Option<string>, limit: nat): seq<Listing>
  {
    if tables == [] then []
    else
      match List(codec, tables[0], keep, cursor, limit)
      case None => []
      case Some(listing) =>
        [listing] + if listing.next.None? then [] else Walk(codec, tables[1..], keep, listing.next, limit)
  }

  lemma WalkUnfolds<D>(codec: Codec<D>, tables: seq<Table<D>>, keep: D -> bool, cursor: Option<string>, limit: nat)
    requires tables != []
    ensures
      var listing := List(codec, tables[0], keep, cursor, limit);
      Walk(codec, tables, keep, cursor, limit) ==
        if listing.None? then []
        else [listing.value] + (if listing.value.next.None? then [] else Walk(codec, tables[1..], keep, listing.value.next, limit))
  {
    hide List;
  }

  ghost predicate Finished(listings: seq<Listing>) {
    listings != [] && listings[|listings| - 1].next.None?
  }

  function Everything(listings: seq<Listing>): seq<Item> {
    if listings == [] then [] else listings[0].items + Everything(listings[1..])
  }

  /** The listings of a walk against the pages they were cut from. */
  ghost predicate Mirrors(listings: seq<Listing>, pages: seq<Page>) {
    && |listings| == |pages|
    && forall i :: 0 <= i < |pages| ==>
         listings[i].items == pages[i].items && (listings[i].next.None? <==> pages[i].next.None?)
  }

  lemma {:induction false} MirroredItems(listings: seq<Listing>, pages: seq<Page>)
    requires Mirrors(listings, pages)
    ensures Everything(listings) == Listed(pages)
    ensures Finished(listings) <==> Complete(pages)
  {
    if pages != [] { MirroredItems(listings[1..], pages[1..]); }
  }

  lemma MirrorCons(listing: Listing, page: Page, listings: seq<Listing>, pages: seq<Page>)
    requires Mirrors(listings, pages)
    requires listing.items == page.items && (listing.next.None? <==> page.next.None?)
    ensures Mirrors([listing] + listings, [page] + pages)
  {
  }

  /** The walk by cursor strings is the walk by keys. */
  lemma {:induction false} WalkMirrorsKeys<D>(codec: Codec<D>, tables: seq<Table<D>>, keep: D -> bool, cursor: Option<string>, limit: nat)
    requires FaithfulThroughout(codec, tables) && Position(codec, cursor).Some?
    ensures Mirrors(Walk(codec, tables, keep, cursor, limit), Keyset.Walk(tables, keep, Position(codec, cursor).value, limit))
  {
    if tables != [] {
      ListingIsPage(codec, tables[0], keep, cursor, limit);
      var listing := List(codec, tables[0], keep, cursor, limit).value;
      var page := PageBelow(tables[0], keep, Position(codec, cursor).value, limit);
      if listing.next.None? {
        MirrorCons(listing, page, [], []);
      } else {
        WalkMirrorsKeys(codec, tables[1..], keep, listing.next, limit);
        MirrorCons(listing, page, Walk(codec, tables[1..], keep, listing.next, limit),
          Keyset.Walk(tables[1..], keep, page.next, limit));
      }
    }
  }

  /** Paging under change, by cursor strings. */
  lemma WalkUnderChange<D>(codec: Codec<D>, tables: seq<Table<D>>, keep: D -> bool, limit: nat)
    requires limit > 0 && Advancing(tables) && FaithfulThroughout(codec, tables)
    requires Finished(Walk(codec, tables, keep, None, limit))
    ensures DistinctFalling(Everything(Walk(codec, tables, keep, None, limit)))
    ensures forall id, entry :: Untouched(tables, id, entry) && keep(entry.data) ==>
      ListedOnce(Everything(Walk(codec, tables, keep, None, limit)), id)
  {
    WalkMirrorsKeys(codec, tables, keep, None, limit);
    MirroredItems(Walk(codec, tables, keep, None, limit), Keyset.Walk(tables, keep, None, limit));
    Keyset.WalkUnderChange(tables, keep, limit);
  }

  /** Paging by cursor strings ends under change. */
  lemma WalkEnds<D>(codec: Codec<D>, tables: seq<Table<D>>, keep: D -> bool, limit: nat)
    requires tables != [] && Advancing(tables) && FaithfulThroughout(codec, tables)
    requires |tables| * limit > |tables[|tables| - 1]|
    ensures Finished(Walk(codec, tables, keep, None, limit))
  {
    hide Advancing, FaithfulThroughout, Complete, Finished;
    WalkMirrorsKeys(codec, tables, keep, None, limit);
    MirroredItems(Walk(codec, tables, keep, None, limit), Keyset.Walk(tables, keep, None, limit));
    Keyset.WalkEnds(tables, keep, None, limit);
  }

  function Repeat<T>(x: T, n: nat): (s: seq<T>)
    ensures |s| == n
    ensures forall i :: 0 <= i < n ==> s[i] == x
  {
    if n == 0 then [] else [x] + Repeat(x, n - 1)
  }

  lemma {:induction false} FixedWalkIsComplete<D>(table: Table<D>, keep: D -> bool, cursor: Option<Key>, limit: nat)
    requires limit > 0
    ensures Complete(FixedWalk(table, keep, cursor, limit))
    decreases |Selected(table, keep, cursor)|
  {
    var next := PageBelow(table, keep, cursor, limit).next;
    if next.Some? {
      Shrinks(table, keep, cursor, limit);
      FixedWalkIsComplete(table, keep, next, limit);
      CompleteCons(PageBelow(table, keep, cursor, limit), FixedWalk(table, keep, next, limit));
    }
  }

  lemma RepeatTail<T>(x: T, n: nat)
    requires n > 0
    ensures Repeat(x, n)[1..] == Repeat(x, n - 1)
  {
  }

  lemma {:induction false} KeyWalkIsFixedWalk<D>(table: Table<D>, keep: D -> bool, cursor: Option<Key>, limit: nat, n: nat)
    requires limit > 0 && n >= |FixedWalk(table, keep, cursor, limit)|
    ensures Keyset.Walk(Repeat(table, n), keep, cursor, limit) == FixedWalk(table, keep, cursor, limit)
    decreases |Selected(table, keep, cursor)|
  {
    hide PageBelow, Selected, Repeat;
    var next := PageBelow(table, keep, cursor, limit).next;
    RepeatTail(table, n);
    if next.Some? {
      Shrinks(table, keep, cursor, limit);
      KeyWalkIsFixedWalk(table, keep, next, limit, n - 1);
    }
  }

  /** Paging a table nobody changes, by cursor strings. */
  lemma WalkOfFixedTable<D>(codec: Codec<D>, table: Table<D>, keep: D -> bool, limit: nat, n: nat)
    requires limit > 0 && FaithfulOn(codec, table)
    requires n >= |FixedWalk(table, keep, None, limit)|
    ensures
      var rows := Selected(table, keep, None);
      var listings := Walk(codec, Repeat(table, n), keep, None, limit);
      && Finished(listings)
      && PageCount(|listings|, |rows|, limit)
      && ListsRows(Everything(listings), Ordered(table, rows))
  {
    WalkMirrorsKeys(codec, Repeat(table, n), keep, None, limit);
    MirroredItems(Walk(codec, Repeat(table, n), keep, None, limit), Keyset.Walk(Repeat(table, n), keep, None, limit));
    KeyWalkIsFixedWalk(table, keep, None, limit, n);
    FixedWalkIsComplete(table, keep, None, limit);
    FixedWalkIsSortedTable(table, keep, None, limit);
    FixedWalkPageCount(table, keep, None, limit);
  }
}
