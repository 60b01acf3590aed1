/** The opportunity list: filtered, newest first, resumed from an opaque cursor while the table changes. */
module Pagination {
  import opened Prelude
  import opened Cursor
  import opened Text
  import Utf8
  import Base64Url
  import Keyset
  import ResumedWalk

  datatype Stage = Sourced | Screening | Screened | Diligence | Decision | Decided | Archived

  datatype Origin = Inbound | Outbound | Manual

  /** An opportunity row as the list query sees it, with the lower-cased texts of its company. */
  datatype Row = Row(
    org: nat, updatedAt: Instant, stage: Stage, origin: Origin, companyName: string, companyDescription: Option<string>)

  type Table = t: map<Uuid, Row> | forall id <- t :: Valid(t[id].updatedAt) witness map[]

  /** The fixed part of a listing: tenant and optional filters; `q` is already normalised. */
  datatype Filter = Filter(org: nat, stage: Option<Stage>, origin: Option<Origin>, q: Option<string>)

  predicate Matches(f: Filter, row: Row) {
    && row.org == f.org
    && (f.stage.None? || row.stage == f.stage.value)
    && (f.origin.None? || row.origin == f.origin.value)
    && (f.q.None? || f.q.value == ""
        || Contains(row.companyName, f.q.value)
        || (row.companyDescription.Some? && Contains(row.companyDescription.value, f.q.value)))
  }

  function Keep(f: Filter): Row -> bool {
    (row: Row) => Matches(f, row)
  }

  // ---------------------------------------------------------------- the order of instants

  function Months(t: Instant): nat { t.year * 13 + t.month }

  function Days(t: Instant): nat { Months(t) * 32 + t.day }

  function Hours(t: Instant): nat { Days(t) * 24 + t.hour }

  function Minutes(t: Instant): nat { Hours(t) * 60 + t.minute }

  function Seconds(t: Instant): nat { Minutes(t) * 60 + t.second }

  /** The place of an instant on the time line: its fields as digits of mixed radix. */
  function Rank(t: Instant): nat { Seconds(t) * 1000000 + t.micro }

  /** Comparing fields from the largest unit down. */
  predicate Earlier(t: Instant, u: Instant) {
    if t.year != u.year then t.year < u.year
    else if t.month != u.month then t.month < u.month
    else if t.day != u.day then t.day < u.day
    else if t.hour != u.hour then t.hour < u.hour
    else if t.minute != u.minute then t.minute < u.minute
    else if t.second != u.second then t.second < u.second
    else t.micro < u.micro
  }

  /** Ranks order as the instants do. */
  lemma RankIsChronological(t: Instant, u: Instant)
    requires Valid(t) && Valid(u)
    ensures Rank(t) < Rank(u) <==> Earlier(t, u)
    ensures Rank(t) == Rank(u) <==> t == u
  {
    assert Months(t) < Months(u) <==> t.year < u.year || (t.year == u.year && t.month < u.month);
    assert Days(t) < Days(u) <==> Months(t) < Months(u) || (Months(t) == Months(u) && t.day < u.day);
    assert Hours(t) < Hours(u) <==> Days(t) < Days(u) || (Days(t) == Days(u) && t.hour < u.hour);
    assert Minutes(t) < Minutes(u) <==> Hours(t) < Hours(u) || (Hours(t) == Hours(u) && t.minute < u.minute);
    assert Seconds(t) < Seconds(u) <==> Minutes(t) < Minutes(u) || (Minutes(t) == Minutes(u) && t.second < u.second);
  }

  /** The table as the keyset algorithm sees it. */
  function View(table: Table): (view: Keyset.Table<Row>)
    ensures view.Keys == table.Keys
  {
    map id <- table :: id := Keyset.Entry(Rank(table[id].updatedAt), table[id])
  }

  // ---------------------------------------------------------------- cursors and listings

  /** The key a cursor decodes to. */
  function KeyFrom(cursor: string): Option<Keyset.Key> {
    match DecodeCursor(cursor)
    case Err(_) => None
    case Ok((t, rowId)) =>
      match ParseUuid(rowId)
      case None => None
      case Some(id) => Some(Keyset.Key(Rank(t), id))
  }

  function CursorFor(id: nat, row: Row): string {
    EncodeCursor(row.updatedAt, PrintUuid(id))
  }

  function Codec(): ResumedWalk.Codec<Row> {
    ResumedWalk.Codec((id: nat, row: Row) => CursorFor(id, row), (cursor: string) => KeyFrom(cursor))
  }

  /** The endpoint: an undecodable cursor is an error, an empty one counts as none. */
  ghost function ListOpportunities(table: Table, f: Filter, cursor: Option<string>, limit: nat): Option<ResumedWalk.Listing> {
    ResumedWalk.List(Codec(), View(table), Keep(f), cursor, limit)
  }

  lemma CursorNotEmpty(t: Instant, rowId: string)
    ensures EncodeCursor(t, rowId) != ""
  {
    hide EncodeCursor, IsoFormat, Base64Url.Pad, Base64Url.Decode, Utf8.Encode, Utf8.Decode;
    NothingDecodesToNothing();
    CursorText(t, rowId);
    assert |IsoFormat(t) + "|" + rowId| > 0;
  }

  lemma NothingDecodesToNothing()
    ensures Base64Url.Decode(Base64Url.Pad("")) == Some([]) && Utf8.Decode([]) == Some("")
  {
    assert Base64Url.Pad("") == "";
  }

  /** The cursor issued after a row stands for that row's key. */
  lemma CursorResumes(id: Uuid, row: Row)
    requires Valid(row.updatedAt)
    ensures KeyFrom(CursorFor(id, row)) == Some(Keyset.Key(Rank(row.updatedAt), id))
    ensures CursorFor(id, row) != ""
  {
    UuidRoundTrip(id);
    RoundTripIff(row.updatedAt, PrintUuid(id));
    CursorNotEmpty(row.updatedAt, PrintUuid(id));
  }

  lemma CodecIsFaithful(table: Table)
    ensures ResumedWalk.FaithfulOn(Codec(), View(table))
  {
    forall id | id in View(table)
      ensures KeyFrom(CursorFor(id, table[id])) == Some(Keyset.KeyIn(View(table), id)) && CursorFor(id, table[id]) != ""
    {
      CursorResumes(id, table[id]);
    }
  }

  // ---------------------------------------------------------------- walks

  datatype Write = Insert(id: Uuid, row: Row) | Update(id: Uuid, row: Row)

  /** Ids are fresh, updated rows exist, and no write lowers `updated_at`. */
  predicate Legal(table: Table, write: Write) {
    && Valid(write.row.updatedAt)
    && match write
       case Insert(id, _) => id !in table
       case Update(id, row) => id in table && !Earlier(row.updatedAt, table[id].updatedAt)
  }

  function Apply(table: Table, write: Write): Table
    requires Legal(table, write)
  {
    table[write.id := write.row]
  }

  ghost predicate LegalAll(table: Table, writes: seq<Write>)
    decreases writes
  {
    writes == [] || (Legal(table, writes[0]) && LegalAll(Apply(table, writes[0]), writes[1..]))
  }

  ghost function ApplyAll(table: Table, writes: seq<Write>): Table
    requires LegalAll(table, writes)
    decreases writes
  {
    if writes == [] then table else ApplyAll(Apply(table, writes[0]), writes[1..])
  }

  /** The snapshots the pages of a walk are cut from, with any writes in between. */
  ghost predicate Snapshots(tables: seq<Table>, between: seq<seq<Write>>) {
    && |tables| == |between| + 1
    && forall i :: 0 <= i < |between| ==>
         LegalAll(tables[i], between[i]) && tables[i + 1] == ApplyAll(tables[i], between[i])
  }

  function Views(tables: seq<Table>): (views: seq<Keyset.Table<Row>>)
    ensures |views| == |tables|
  {
    seq(|tables|, i requires 0 <= i < |tables| => View(tables[i]))
  }

  /** Asking for page after page with the cursor just received, until a response carries none or is an error. */
  ghost function ListWalk(tables: seq<Table>, f: Filter, cursor: Option<string>, limit: nat): seq<ResumedWalk.Listing> {
    if tables == [] then []
    else
      match ListOpportunities(tables[0], f, cursor, limit)
      case None => []
      case Some(listing) =>
        [listing] + if listing.next.None? then [] else ListWalk(tables[1..], f, listing.next, limit)
  }

  lemma ViewsTail(tables: seq<Table>)
    requires tables != []
    ensures Views(tables) != [] && Views(tables)[0] == View(tables[0]) && Views(tables)[1..] == Views(tables[1..])
  {
  }

  lemma ListWalkUnfolds(tables: seq<Table>, f: Filter, cursor: Option<string>, limit: nat)
    requires tables != []
    ensures
      var listing := ListOpportunities(tables[0], f, cursor, limit);
      ListWalk(tables, f, cursor, limit) ==
        if listing.None? then []
        else [listing.value] + (if listing.value.next.None? then [] else ListWalk(tables[1..], f, listing.value.next, limit))
  {
    hide ListOpportunities;
  }

  /** The requests of a client are a walk of the paging algorithm over the tables' views. */
  lemma {:induction false} ListWalkIsWalk(tables: seq<Table>, f: Filter, cursor: Option<string>, limit: nat)
    ensures ListWalk(tables, f, cursor, limit) == ResumedWalk.Walk(Codec(), Views(tables), Keep(f), cursor, limit)
  {
    if tables != [] {
      ViewsTail(tables);
      ListWalkUnfolds(tables, f, cursor, limit);
      ResumedWalk.WalkUnfolds(Codec(), Views(tables), Keep(f), cursor, limit);
      hide View, Views, Codec, Keep, ResumedWalk.List, ResumedWalk.Walk, ListWalk;
      var listing := ListOpportunities(tables[0], f, cursor, limit);
      if listing.Some? && listing.value.next.Some? { ListWalkIsWalk(tables[1..], f, listing.value.next, limit); }
    }
  }

  lemma WriteAdvances(table: Table, write: Write)
    requires Legal(table, write)
    ensures Keyset.Advances(View(table), View(Apply(table, write)))
  {
    hide Rank, Earlier;
    if write.Update? { RankIsChronological(write.row.updatedAt, table[write.id].updatedAt); }
  }

  lemma {:induction false} WritesAdvance(table: Table, writes: seq<Write>)
    requires LegalAll(table, writes)
    ensures Keyset.Advances(View(table), View(ApplyAll(table, writes)))
    decreases writes
  {
    if writes != [] {
      var next := Apply(table, writes[0]);
      WriteAdvances(table, writes[0]);
      WritesAdvance(next, writes[1..]);
      Keyset.AdvancesTransitive(View(table), View(next), View(ApplyAll(table, writes)));
    }
  }

  lemma SnapshotsAdvance(tables: seq<Table>, between: seq<seq<Write>>)
    requires Snapshots(tables, between)
    ensures Keyset.Advancing(Views(tables))
  {
    forall i | 0 <= i < |tables| - 1 ensures Keyset.Advances(View(tables[i]), View(tables[i + 1])) {
      WritesAdvance(tables[i], between[i]);
    }
  }

  lemma CodecIsFaithfulThroughout(tables: seq<Table>)
    ensures ResumedWalk.FaithfulThroughout(Codec(), Views(tables))
  {
    forall i | 0 <= i < |tables| ensures ResumedWalk.FaithfulOn(Codec(), Views(tables)[i]) {
      CodecIsFaithful(tables[i]);
    }
  }

  /** A row nobody writes to while the walk lasts. */
  ghost predicate Untouched(tables: seq<Table>, id: Uuid, row: Row) {
    forall i :: 0 <= i < |tables| ==> id in tables[i] && tables[i][id] == row
  }

  lemma WalkLists(tables: seq<Table>, between: seq<seq<Write>>, f: Filter, limit: nat)
    requires limit > 0 && Snapshots(tables, between)
    requires ResumedWalk.Finished(ListWalk(tables, f, None, limit))
    ensures Keyset.DistinctFalling(ResumedWalk.Everything(ListWalk(tables, f, None, limit)))
    ensures forall id, entry :: Keyset.Untouched(Views(tables), id, entry) && Keep(f)(entry.data) ==>
      Keyset.ListedOnce(ResumedWalk.Everything(ListWalk(tables, f, None, limit)), id)
  {
    hide Snapshots, ListWalk, Keyset.Untouched, Keyset.ListedOnce, Keyset.DistinctFalling, ResumedWalk.Walk, Matches;
    SnapshotsAdvance(tables, between);
    CodecIsFaithfulThroughout(tables);
    ListWalkIsWalk(tables, f, None, limit);
    ResumedWalk.WalkUnderChange(Codec(), Views(tables), Keep(f), limit);
  }

  lemma UntouchedIsListed(tables: seq<Table>, between: seq<seq<Write>>, f: Filter, limit: nat, id: Uuid, row: Row)
    requires limit > 0 && Snapshots(tables, between)
    requires ResumedWalk.Finished(ListWalk(tables, f, None, limit))
    requires Untouched(tables, id, row) && Matches(f, row)
    ensures Keyset.ListedOnce(ResumedWalk.Everything(ListWalk(tables, f, None, limit)), id)
  {
    hide Snapshots, ListWalk, Keyset.ListedOnce, Keyset.DistinctFalling, ResumedWalk.Finished, Matches;
    WalkLists(tables, between, f, limit);
    var entry := Keyset.Entry(Rank(row.updatedAt), row);
    assert Keyset.Untouched(Views(tables), id, entry);
    assert Keep(f)(entry.data);
  }

  /**
    * What a caller is promised to see, field by field: rows of the tenant, of the stage and origin asked for if
    * any, with the search text, if it is not empty, in the company's name or description.
    */
  ghost predicate Promised(f: Filter, row: Row) {
    && row.org == f.org
    && f.stage in {None, Some(row.stage)}
    && f.origin in {None, Some(row.origin)}
    && (f.q in {None, Some("")}
        || Contains(row.companyName, f.q.value)
        || exists text <- AsSet(row.companyDescription) :: Contains(text, f.q.value))
  }

  ghost function AsSet(text: Option<string>): set<string> {
    if text.Some? then {text.value} else {}
  }

  lemma PromisedIff(f: Filter, row: Row)
    ensures Matches(f, row) <==> Promised(f, row)
  {
    hide Contains;
  }

  /**
    * Paging to the end while other requests insert opportunities and update them: every promised row that stays
    * untouched is returned exactly once, no row is returned twice, and the keys returned strictly fall.
    */
  lemma PagingUnderChange(tables: seq<Table>, between: seq<seq<Write>>, f: Filter, limit: nat)
    requires limit > 0 && Snapshots(tables, between)
    requires ResumedWalk.Finished(ListWalk(tables, f, None, limit))
    ensures Keyset.DistinctFalling(ResumedWalk.Everything(ListWalk(tables, f, None, limit)))
    ensures forall id: Uuid, row: Row :: Untouched(tables, id, row) && Promised(f, row) ==>
      Keyset.ListedOnce(ResumedWalk.Everything(ListWalk(tables, f, None, limit)), id)
  {
    WalkLists(tables, between, f, limit);
    hide Untouched, Matches, Promised, Snapshots, Keyset.ListedOnce, Keyset.DistinctFalling, ResumedWalk.Finished, ListWalk;
    forall id: Uuid, row: Row | Untouched(tables, id, row) && Promised(f, row)
      ensures Keyset.ListedOnce(ResumedWalk.Everything(ListWalk(tables, f, None, limit)), id)
    {
      PromisedIff(f, row);
      UntouchedIsListed(tables, between, f, limit, id, row);
    }
  }

  /** The item is a row of the table, under its own key, and a promised one. */
  ghost predicate AskedFor(table: Table, f: Filter, item: Keyset.Item) {
    && item.id in table
    && item.key == Keyset.Key(Rank(table[item.id].updatedAt), item.id)
    && Promised(f, table[item.id])
  }

  lemma ListedByRequest(table: Table, f: Filter, cursor: Option<string>, limit: nat, k: nat)
    requires ListOpportunities(table, f, cursor, limit).Some? && k < |ListOpportunities(table, f, cursor, limit).value.items|
    ensures AskedFor(table, f, ListOpportunities(table, f, cursor, limit).value.items[k])
  {
    hide Rank, Matches, Promised, Codec, ResumedWalk.List;
    ResumedWalk.ListingIsSound(Codec(), View(table), Keep(f), cursor, limit, k);
    var id := ListOpportunities(table, f, cursor, limit).value.items[k].id;
    PromisedIff(f, table[id]);
  }

  /** Whatever is listed was asked for: each item of each page is a promised row of that page's snapshot. */
  lemma {:induction false} ListedIsAskedFor(tables: seq<Table>, f: Filter, cursor: Option<string>, limit: nat, i: nat, k: nat)
    requires i < |ListWalk(tables, f, cursor, limit)| && k < |ListWalk(tables, f, cursor, limit)[i].items|
    ensures i < |tables| && AskedFor(tables[i], f, ListWalk(tables, f, cursor, limit)[i].items[k])
    decreases i
  {
    hide AskedFor, ListOpportunities;
    ListWalkUnfolds(tables, f, cursor, limit);
    var listing := ListOpportunities(tables[0], f, cursor, limit);
    if i == 0 {
      ListedByRequest(tables[0], f, cursor, limit, k);
    } else {
      ListedIsAskedFor(tables[1..], f, listing.value.next, limit, i - 1, k);
    }
  }

  /** Two tables with the same rows of one tenant. */
  ghost predicate SameForTenant(a: Table, b: Table, org: nat) {
    forall id: Uuid ::
      && (id in a && a[id].org == org ==> id in b && b[id] == a[id])
      && (id in b && b[id].org == org ==> id in a && a[id] == b[id])
  }

  lemma TenantSelection(a: Table, b: Table, f: Filter)
    requires SameForTenant(a, b, f.org)
    ensures Keyset.SameSelection(View(a), View(b), Keep(f))
  {
    hide Rank, Contains;
    forall id | id in View(a) && Keep(f)(View(a)[id].data) ensures id in View(b) && View(b)[id] == View(a)[id] {
      assert a[id].org == f.org;
    }
    forall id | id in View(b) && Keep(f)(View(b)[id].data) ensures id in View(a) && View(a)[id] == View(b)[id] {
      assert b[id].org == f.org;
    }
  }

  ghost predicate SameThroughout(tables: seq<Table>, others: seq<Table>, org: nat) {
    |tables| == |others| && forall i :: 0 <= i < |tables| ==> SameForTenant(tables[i], others[i], org)
  }

  lemma SameTail(tables: seq<Table>, others: seq<Table>, org: nat)
    requires SameThroughout(tables, others, org) && tables != []
    ensures SameForTenant(tables[0], others[0], org) && SameThroughout(tables[1..], others[1..], org)
  {
  }

  lemma SameListing(a: Table, b: Table, f: Filter, cursor: Option<string>, limit: nat)
    requires SameForTenant(a, b, f.org)
    ensures ListOpportunities(a, f, cursor, limit) == ListOpportunities(b, f, cursor, limit)
  {
    hide SameForTenant, View, Keep, Codec, ResumedWalk.List;
    TenantSelection(a, b, f);
    ResumedWalk.ListingAlike(Codec(), View(a), View(b), Keep(f), cursor, limit);
  }

  /**
    * Tenants do not see one another: whatever rows other tenants have, insert or change during the walk, the
    * listings are the same, cursors included.
    */
  lemma {:induction false} TenantsDoNotInterfere(tables: seq<Table>, others: seq<Table>, f: Filter, cursor: Option<string>, limit: nat)
    requires SameThroughout(tables, others, f.org)
    ensures ListWalk(tables, f, cursor, limit) == ListWalk(others, f, cursor, limit)
  {
    if tables != [] {
      SameTail(tables, others, f.org);
      SameListing(tables[0], others[0], f, cursor, limit);
      ListWalkUnfolds(tables, f, cursor, limit);
      ListWalkUnfolds(others, f, cursor, limit);
      hide SameThroughout, ListOpportunities, ListWalk, SameForTenant;
      var listing := ListOpportunities(tables[0], f, cursor, limit);
      if listing.Some? && listing.value.next.Some? {
        TenantsDoNotInterfere(tables[1..], others[1..], f, listing.value.next, limit);
      }
    }
  }

  /** Such paging ends: with as many snapshots as make full pages hold more than the last table, it is finished. */
  lemma PagingEnds(tables: seq<Table>, between: seq<seq<Write>>, f: Filter, limit: nat)
    requires Snapshots(tables, between) && |tables| * limit > |tables[|tables| - 1]|
    ensures ResumedWalk.Finished(ListWalk(tables, f, None, limit))
  {
    SnapshotsAdvance(tables, between);
    CodecIsFaithfulThroughout(tables);
    ListWalkIsWalk(tables, f, None, limit);
    var last := tables[|tables| - 1];
    assert |View(last).Keys| == |last.Keys| && |View(last)| == |View(last).Keys| && |last| == |last.Keys|;
    ResumedWalk.WalkEnds(Codec(), Views(tables), Keep(f), limit);
  }

  ghost function PromisedRows(table: Table, f: Filter): (ids: set<Uuid>)
    ensures ids <= table.Keys
  {
    set id <- table | Promised(f, table[id])
  }

  lemma PromisedSelection(table: Table, f: Filter)
    ensures Keyset.Selected(View(table), Keep(f), None) == PromisedRows(table, f)
  {
    hide Matches, Promised, Rank;
    forall id | id in table ensures Matches(f, table[id]) <==> Promised(f, table[id]) { PromisedIff(f, table[id]); }
  }

  /**
    * On a table nobody changes, the walk by cursor strings ends after as many pages as it takes to hold the
    * promised rows, and has then returned them all and nothing else, newest first.
    */
  lemma PagingAFixedTable(table: Table, f: Filter, limit: nat, n: nat)
    requires limit > 0 && n * limit > |table|
    ensures
      var rows := PromisedRows(table, f);
      var listings := ListWalk(ResumedWalk.Repeat(table, n), f, None, limit);
      && ResumedWalk.Finished(listings)
      && Keyset.PageCount(|listings|, |rows|, limit)
      && Keyset.ListsRows(ResumedWalk.Everything(listings), Keyset.Ordered(View(table), rows))
  {
    hide Promised, PromisedRows, ListWalk, ResumedWalk.Everything, ResumedWalk.Finished, Keyset.PageCount, Keyset.ListsRows, Keyset.Ordered,
      Keyset.Selected, View, ResumedWalk.Repeat;
    PromisedSelection(table, f);
    KeptRowsAreListed(table, f, limit, n);
  }

  lemma KeptRowsAreListed(table: Table, f: Filter, limit: nat, n: nat)
    requires limit > 0 && n * limit > |table|
    ensures
      var rows := Keyset.Selected(View(table), Keep(f), None);
      var listings := ListWalk(ResumedWalk.Repeat(table, n), f, None, limit);
      && ResumedWalk.Finished(listings)
      && Keyset.PageCount(|listings|, |rows|, limit)
      && Keyset.ListsRows(ResumedWalk.Everything(listings), Keyset.Ordered(View(table), rows))
  {
    PagesSuffice(table, f, limit, n);
    CodecIsFaithful(table);
    ListWalkIsWalk(ResumedWalk.Repeat(table, n), f, None, limit);
    assert Views(ResumedWalk.Repeat(table, n)) == ResumedWalk.Repeat(View(table), n);
    ResumedWalk.WalkOfFixedTable(Codec(), View(table), Keep(f), limit, n);
  }

  lemma PagesSuffice(table: Table, f: Filter, limit: nat, n: nat)
    requires limit > 0 && n * limit > |table|
    ensures |Keyset.FixedWalk(View(table), Keep(f), None, limit)| <= n
  {
    hide View, Keep, Keyset.FixedWalk, Keyset.PageCount;
    var rows := Keyset.Selected(View(table), Keep(f), None);
    FewerThan(rows, table.Keys);
    assert |table.Keys| == |table|;
    Keyset.FixedWalkPageCount(View(table), Keep(f), None, limit);
    Keyset.PagesFit(|Keyset.FixedWalk(View(table), Keep(f), None, limit)|, |rows|, limit, n);
  }

  lemma FewerThan(small: set<Uuid>, large: set<Uuid>)
    requires small <= large
    ensures |small| <= |large|
  {
    assert large == small + (large - small);
  }
}
