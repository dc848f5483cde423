/**
 Cursor pagination in `listCampaigns`, `getCampaignJobs` and `listAllJobs`
 (backend/src/services/campaignService.ts).  A cursor is the id of the last row shown.  It is resolved
 to that row's place in the order, by a lookup that ignores the status filter; an unknown cursor starts
 over.
 */
module Pagination {
  import opened Ordering
  import opened Schema
  import opened Wrappers
  import Sets

  /** A row the caller may page over: its place in the order, and whether the filter matches it now. */
  datatype Entry = Entry(key: Key, matches: bool)

  type Table = map<int, Entry>

  ghost predicate Valid(table: Table)
  {
    forall i, j :: i in table && j in table && table[i].key == table[j].key ==> i == j
  }

  function Matching(table: Table): set<Key>
  {
    set id | id in table && table[id].matches :: table[id].key
  }

  datatype Page = Page(items: seq<Key>, nextCursor: Option<int>)

  function Resolve(table: Table, cursor: Option<int>): Option<Key>
  {
    if cursor.Some? && cursor.value in table then Some(table[cursor.value].key) else None
  }

  ghost predicate IdHasKey(table: Table, id: int, key: Key)
  {
    id in table && table[id].key == key
  }

  /** The id of a row of the table, from its place in the order. */
  ghost function IdOf(table: Table, key: Key): int
    requires exists id :: IdHasKey(table, id, key)
  {
    var id :| IdHasKey(table, id, key);
    id
  }

  lemma MatchingHasId(table: Table, key: Key)
    requires key in Matching(table)
    ensures exists id :: IdHasKey(table, id, key)
  {
    var id :| id in table && table[id].matches && table[id].key == key;
    assert IdHasKey(table, id, key);
  }

  /** One query: `limit + 1` rows are read, and the extra one only tells that there are more. */
  ghost function ListPage(table: Table, cursor: Option<int>, limit: nat): (page: Page)
    requires limit >= 1
  {
    var rows := Take(Matching(table), Resolve(table, cursor), limit + 1);
    if |rows| > limit then
      TakenMatch(table, Resolve(table, cursor), limit + 1, rows[limit - 1]);
      Page(rows[..limit], Some(IdOf(table, rows[limit - 1])))
    else Page(rows, None)
  }

  lemma TakenMatch(table: Table, anchor: Option<Key>, take: nat, key: Key)
    requires key in Take(Matching(table), anchor, take)
    ensures key in After(Matching(table), anchor) && exists id :: IdHasKey(table, id, key)
  {
    AscendingMeaning(After(Matching(table), anchor));
    MatchingHasId(table, key);
  }

  // ---- A store that does not change ------------------------------------------------------------

  /** Everything a client collects by following `nextCursor` until it is null. */
  ghost function Follow(table: Table, cursor: Option<int>, limit: nat): seq<Key>
    requires limit >= 1 && Valid(table)
    decreases |After(Matching(table), Resolve(table, cursor))|
  {
    var page := ListPage(table, cursor, limit);
    if page.nextCursor.None? then page.items
    else
      NextPageIsSmaller(table, cursor, limit);
      page.items + Follow(table, page.nextCursor, limit)
  }

  /** The next page starts where this one ends. */
  lemma NextCursorResolves(table: Table, cursor: Option<int>, limit: nat)
    requires limit >= 1 && Valid(table) && ListPage(table, cursor, limit).nextCursor.Some?
    ensures var page := ListPage(table, cursor, limit);
            && |page.items| == limit
            && Resolve(table, page.nextCursor) == Some(page.items[limit - 1])
            && page.items[limit - 1] in After(Matching(table), Resolve(table, cursor))
  {
    var rows := Take(Matching(table), Resolve(table, cursor), limit + 1);
    TakenMatch(table, Resolve(table, cursor), limit + 1, rows[limit - 1]);
    assert IdHasKey(table, IdOf(table, rows[limit - 1]), rows[limit - 1]);
  }

  lemma NextPageIsSmaller(table: Table, cursor: Option<int>, limit: nat)
    requires limit >= 1 && Valid(table) && ListPage(table, cursor, limit).nextCursor.Some?
    ensures |After(Matching(table), Resolve(table, ListPage(table, cursor, limit).nextCursor))|
          < |After(Matching(table), Resolve(table, cursor))|
  {
    NextCursorResolves(table, cursor, limit);
    var page := ListPage(table, cursor, limit);
    var here := After(Matching(table), Resolve(table, cursor));
    var there := After(Matching(table), Resolve(table, page.nextCursor));
    var last := page.items[limit - 1];
    assert there <= here - {last};
    Sets.SubsetSize(there, here - {last});
  }

  lemma PageItems(table: Table, cursor: Option<int>, limit: nat)
    requires limit >= 1
    ensures var page := ListPage(table, cursor, limit);
            var here := Ascending(After(Matching(table), Resolve(table, cursor)));
            if |here| <= limit then page == Page(here, None) else page.items == here[..limit] && page.nextCursor.Some?
  {
  }

  lemma TakeThenAfter(s: set<Key>, anchor: Option<Key>, limit: nat)
    requires 0 < limit <= |After(s, anchor)|
    requires var last := Ascending(After(s, anchor))[limit - 1]; last in After(s, anchor)
    ensures var keys := Ascending(After(s, anchor));
            keys == keys[..limit] + Ascending(After(s, Some(keys[limit - 1])))
  {
    var keys := Ascending(After(s, anchor));
    DropIsAfter(After(s, anchor), limit);
    AfterAfter(s, anchor, keys[limit - 1]);
  }

  /** A page is the first `limit` rows beyond the anchor, and the next page continues after them. */
  lemma PageThenRest(table: Table, cursor: Option<int>, limit: nat)
    requires limit >= 1 && Valid(table)
    ensures var page := ListPage(table, cursor, limit);
            var here := Ascending(After(Matching(table), Resolve(table, cursor)));
            && (page.nextCursor.None? ==> page.items == here)
            && (page.nextCursor.Some? ==>
                  here == page.items + Ascending(After(Matching(table), Resolve(table, page.nextCursor))))
  {
    var page := ListPage(table, cursor, limit);
    PageItems(table, cursor, limit);
    if page.nextCursor.Some? {
      NextCursorResolves(table, cursor, limit);
      hide ListPage, Take, Resolve;
      TakeThenAfter(Matching(table), Resolve(table, cursor), limit);
    }
  }

  /** Following the cursors yields exactly the matching rows after the start, in order, each once. */
  lemma {:induction false} FollowIsComplete(table: Table, cursor: Option<int>, limit: nat)
    requires limit >= 1 && Valid(table)
    ensures Follow(table, cursor, limit) == Ascending(After(Matching(table), Resolve(table, cursor)))
    decreases |After(Matching(table), Resolve(table, cursor))|
  {
    PageThenRest(table, cursor, limit);
    if ListPage(table, cursor, limit).nextCursor.Some? {
      NextPageIsSmaller(table, cursor, limit);
      FollowIsComplete(table, ListPage(table, cursor, limit).nextCursor, limit);
    }
  }

  lemma AfterNothing(s: set<Key>)
    ensures After(s, None) == s
  {
  }

  ghost predicate AllAfter(keys: seq<Key>, anchor: Option<Key>)
  {
    anchor.Some? ==> forall i :: 0 <= i < |keys| ==> Before(anchor.value, keys[i])
  }

  lemma PageIsInOrder(table: Table, cursor: Option<int>, limit: nat)
    requires limit >= 1
    ensures Increasing(ListPage(table, cursor, limit).items)
    ensures AllAfter(ListPage(table, cursor, limit).items, Resolve(table, cursor))
  {
    var here := After(Matching(table), Resolve(table, cursor));
    AscendingMeaning(here);
    var items := ListPage(table, cursor, limit).items;
    assert forall i :: 0 <= i < |items| ==> items[i] == Ascending(here)[i] && Ascending(here)[i] in Ascending(here);
  }

  lemma PageThenLater(items: seq<Key>, rest: seq<Key>, anchor: Option<Key>)
    requires Increasing(items) && AllAfter(items, anchor) && items != []
    requires Increasing(rest) && AllAfter(rest, Some(items[|items| - 1]))
    ensures Increasing(items + rest) && AllAfter(items + rest, anchor)
  {
    var last := items[|items| - 1];
    forall i | 0 <= i < |items|
      ensures items[i] == last || Before(items[i], last)
    {
    }
    assert anchor.Some? ==> Before(anchor.value, last);
  }

  // ---- A user's campaigns, and a campaign's jobs -----------------------------------------------

  datatype CampaignRow = CampaignRow(userId: int, createdAt: int)

  /** A user's campaigns, newest first: ordered by creation time and id, both descending. */
  function CampaignTable(campaigns: map<int, CampaignRow>, userId: int): Table
  {
    map id | id in campaigns && campaigns[id].userId == userId ::
      Entry(Key(-campaigns[id].createdAt, -id), true)
  }

  /** A campaign's jobs by sequence number, with an optional status filter. */
  function JobTable(rows: Rows, campaign: CampaignId, status: Option<JobStatus>): Table
  {
    map id | id in rows && rows[id].campaign == campaign ::
      Entry(Key(rows[id].sequenceNumber, 0), status.Some? ==> rows[id].status == status.value)
  }

  lemma CampaignTableIsValid(campaigns: map<int, CampaignRow>, userId: int)
    ensures Valid(CampaignTable(campaigns, userId))
  {
  }

  lemma JobTableIsValid(rows: Rows, campaign: CampaignId, status: Option<JobStatus>)
    requires DistinctPositions(rows, campaign)
    ensures Valid(JobTable(rows, campaign, status))
  {
  }

  lemma CampaignIsListed(campaigns: map<int, CampaignRow>, userId: int, id: int)
    requires id in campaigns
    ensures Key(-campaigns[id].createdAt, -id) in Matching(CampaignTable(campaigns, userId))
       <==> campaigns[id].userId == userId
  {
    var table, key := CampaignTable(campaigns, userId), Key(-campaigns[id].createdAt, -id);
    if campaigns[id].userId == userId {
      assert table[id].key == key;
    }
    if key in Matching(table) {
      var id2 :| id2 in table && table[id2].matches && table[id2].key == key;
    }
  }

  lemma FollowFromTheStart(table: Table, limit: nat)
    requires limit >= 1 && Valid(table)
    ensures Follow(table, None, limit) == Ascending(Matching(table))
    ensures Increasing(Follow(table, None, limit))
    ensures forall k :: k in Follow(table, None, limit) <==> k in Matching(table)
  {
    FollowIsComplete(table, None, limit);
    AfterNothing(Matching(table));
    AscendingMeaning(Matching(table));
  }

  /** A client sees each of the user's campaigns once, newest first, and no other campaign. */
  lemma ListCampaignsIsComplete(campaigns: map<int, CampaignRow>, userId: int, limit: nat, id: int)
    requires limit >= 1 && id in campaigns
    ensures Valid(CampaignTable(campaigns, userId))
    ensures var seen := Follow(CampaignTable(campaigns, userId), None, limit);
            && Increasing(seen)
            && (Key(-campaigns[id].createdAt, -id) in seen <==> campaigns[id].userId == userId)
  {
    CampaignTableIsValid(campaigns, userId);
    FollowFromTheStart(CampaignTable(campaigns, userId), limit);
    CampaignIsListed(campaigns, userId, id);
  }

  /**
   A client sees each job of the campaign with the wanted status once, in send order, and no other job:
   every place listed belongs to such a job.
   */
  lemma GetCampaignJobsIsComplete(rows: Rows, campaign: CampaignId, status: Option<JobStatus>, limit: nat)
    requires limit >= 1 && DistinctPositions(rows, campaign)
    ensures Valid(JobTable(rows, campaign, status))
    ensures var seen := Follow(JobTable(rows, campaign, status), None, limit);
            && Increasing(seen)
            && (forall id :: id in rows && rows[id].campaign == campaign ==>
                  (Key(rows[id].sequenceNumber, 0) in seen <==> status == None || status == Some(rows[id].status)))
            && (forall key :: key in seen ==> exists id ::
                  id in rows && rows[id].campaign == campaign && key == Key(rows[id].sequenceNumber, 0))
  {
    var table := JobTable(rows, campaign, status);
    JobTableIsValid(rows, campaign, status);
    FollowFromTheStart(table, limit);
    forall id | id in rows && rows[id].campaign == campaign
      ensures Key(rows[id].sequenceNumber, 0) in Matching(table) <==> status == None || status == Some(rows[id].status)
    {
      assert id in table && table[id].key == Key(rows[id].sequenceNumber, 0);
    }
    hide Follow, JobTable;
  }

  // ---- All jobs of a user -------------------------------------------------------------------------

  /**
   All jobs of the campaigns a user owns.  The SENT tab runs backwards from the last one sent; every
   other view follows the schedule.  `found` holds the rows that the search text matches, which are all
   rows when there is no search.
   */
  function AllJobsTable(rows: Rows, owned: set<CampaignId>, status: Option<JobStatus>, found: set<JobId>): Table
  {
    map id | id in rows && rows[id].campaign in owned && (status == Some(Sent) ==> rows[id].sentAt.Some?) ::
      if status == Some(Sent) then Entry(Key(-rows[id].sentAt.value, -id), rows[id].status == Sent && id in found)
      else Entry(Key(rows[id].scheduledAt, id), (status.Some? ==> rows[id].status == status.value) && id in found)
  }

  /** The view without the search. */
  function ViewTable(rows: Rows, owned: set<CampaignId>, status: Option<JobStatus>): Table
  {
    AllJobsTable(rows, owned, status, rows.Keys)
  }

  /** The SENT tab beyond a row that was never sent: filtered by schedule, ordered by the time of sending. */
  function BeyondUnsentTable(rows: Rows, owned: set<CampaignId>, anchor: JobId): Table
    requires anchor in rows
  {
    map id | id in rows && rows[id].campaign in owned && rows[id].sentAt.Some? ::
      Entry(Key(-rows[id].sentAt.value, -id),
            rows[id].status == Sent && Before(Key(rows[anchor].scheduledAt, anchor), Key(rows[id].scheduledAt, id)))
  }

  /**
   One query of `listAllJobs`.  The search and the cursor are both a key `OR` of the same object, so
   when the cursor resolves, its `OR` replaces the search's.
   */
  ghost function AllJobsPage(rows: Rows, owned: set<CampaignId>, status: Option<JobStatus>, found: set<JobId>,
                             cursor: Option<JobId>, limit: nat): Page
    requires limit >= 1
  {
    if cursor.None? || cursor.value !in rows || rows[cursor.value].campaign !in owned then
      ListPage(AllJobsTable(rows, owned, status, found), None, limit)
    else if status == Some(Sent) && rows[cursor.value].sentAt.None? then
      ListPage(BeyondUnsentTable(rows, owned, cursor.value), None, limit)
    else ListPage(ViewTable(rows, owned, status), cursor, limit)
  }

  /** A cursor that is no row of the caller's starts over, in all three lists. */
  lemma ForeignCursorStartsOver(campaigns: map<int, CampaignRow>, userId: int, rows: Rows, campaign: CampaignId,
                                owned: set<CampaignId>, status: Option<JobStatus>, found: set<JobId>,
                                cursor: int, limit: nat)
    requires limit >= 1
    ensures (cursor in campaigns ==> campaigns[cursor].userId != userId) ==>
              ListPage(CampaignTable(campaigns, userId), Some(cursor), limit) == ListPage(CampaignTable(campaigns, userId), None, limit)
    ensures (cursor in rows ==> rows[cursor].campaign != campaign) ==>
              ListPage(JobTable(rows, campaign, status), Some(cursor), limit) == ListPage(JobTable(rows, campaign, status), None, limit)
    ensures (cursor in rows ==> rows[cursor].campaign !in owned) ==>
              AllJobsPage(rows, owned, status, found, Some(cursor), limit) == AllJobsPage(rows, owned, status, found, None, limit)
  {
    ForeignCursor(CampaignTable(campaigns, userId), cursor, limit);
    ForeignCursor(JobTable(rows, campaign, status), cursor, limit);
    hide ListPage;
  }

  lemma ForeignCursor(table: Table, cursor: int, limit: nat)
    requires limit >= 1
    ensures cursor !in table ==> ListPage(table, Some(cursor), limit) == ListPage(table, None, limit)
  {
  }

  /** The first `limit` of the places shown, in order. */
  ghost predicate IsFirstPage(items: seq<Key>, shown: set<Key>, limit: nat)
  {
    && Increasing(items) && (forall key :: key in items ==> key in shown)
    && |items| == (if |shown| <= limit then |shown| else limit)
    && (forall key :: key in shown && key !in items ==> items != [] && Before(items[|items| - 1], key))
  }

  lemma FirstOfTable(table: Table, limit: nat)
    requires limit >= 1
    ensures IsFirstPage(ListPage(table, None, limit).items, Matching(table), limit)
  {
    AfterNothing(Matching(table));
    PageItems(table, None, limit);
    PageIsInOrder(table, None, limit);
    AscendingMeaning(Matching(table));
    forall key | key in Matching(table)
      ensures var items := ListPage(table, None, limit).items;
              key in items || (items != [] && Before(items[|items| - 1], key))
    {
      PageLeavesNoGap(table, None, limit, key);
    }
    hide ListPage;
  }

  lemma BeyondUnsentShows(rows: Rows, owned: set<CampaignId>, anchor: JobId, id: JobId)
    requires anchor in rows && id in rows && rows[id].sentAt.Some?
    ensures Key(-rows[id].sentAt.value, -id) in Matching(BeyondUnsentTable(rows, owned, anchor)) <==>
              && rows[id].campaign in owned && rows[id].status == Sent
              && (rows[id].scheduledAt > rows[anchor].scheduledAt
                  || (rows[id].scheduledAt == rows[anchor].scheduledAt && id > anchor))
  {
    var table := BeyondUnsentTable(rows, owned, anchor);
    if id in table {
      assert table[id].key == Key(-rows[id].sentAt.value, -id);
    }
  }

  /**
   On the SENT tab, beyond a row that was never sent: the page holds the first of the user's SENT jobs, last
   sent first, of those due after that row.
   */
  lemma SentTabBeyondUnsentRow(rows: Rows, owned: set<CampaignId>, found: set<JobId>, anchor: JobId, limit: nat)
    returns (shown: set<Key>)
    requires limit >= 1 && anchor in rows && rows[anchor].campaign in owned && rows[anchor].sentAt.None?
    ensures forall id :: id in rows && rows[id].sentAt.Some? ==>
              (Key(-rows[id].sentAt.value, -id) in shown <==>
                 && rows[id].campaign in owned && rows[id].status == Sent
                 && (rows[id].scheduledAt > rows[anchor].scheduledAt
                     || (rows[id].scheduledAt == rows[anchor].scheduledAt && id > anchor)))
    ensures IsFirstPage(AllJobsPage(rows, owned, Some(Sent), found, Some(anchor), limit).items, shown, limit)
  {
    hide ListPage, BeyondUnsentTable, Matching, IsFirstPage;
    shown := Matching(BeyondUnsentTable(rows, owned, anchor));
    forall id | id in rows && rows[id].sentAt.Some?
      ensures Key(-rows[id].sentAt.value, -id) in shown <==>
                && rows[id].campaign in owned && rows[id].status == Sent
                && (rows[id].scheduledAt > rows[anchor].scheduledAt
                    || (rows[id].scheduledAt == rows[anchor].scheduledAt && id > anchor))
    {
      BeyondUnsentShows(rows, owned, anchor, id);
    }
    FirstOfTable(BeyondUnsentTable(rows, owned, anchor), limit);
  }

  /** A table with the places of another, of which it shows no more. */
  ghost predicate Narrows(a: Table, b: Table)
  {
    forall id :: id in a ==> id in b && b[id].key == a[id].key && (a[id].matches ==> b[id].matches)
  }

  lemma NarrowedPage(a: Table, b: Table, cursor: Option<int>, limit: nat)
    requires limit >= 1 && Valid(a) && Valid(b) && Narrows(a, b) && ListPage(a, cursor, limit).nextCursor.Some?
    ensures var page := ListPage(a, cursor, limit);
            && |page.items| == limit
            && Resolve(b, page.nextCursor) == Some(page.items[limit - 1])
            && page.items[limit - 1] in After(Matching(b), Resolve(a, cursor))
  {
    NextCursorResolves(a, cursor, limit);
    var last := ListPage(a, cursor, limit).items[limit - 1];
    var id :| id in a && a[id].matches && a[id].key == last;
    assert id in b && b[id].matches && b[id].key == last;
  }

  /** Wherever the next page starts, it is beyond the start of this one in the view. */
  lemma AllJobsCursorResolves(rows: Rows, owned: set<CampaignId>, status: Option<JobStatus>, found: set<JobId>,
                              cursor: Option<JobId>, limit: nat)
    requires limit >= 1 && AllJobsPage(rows, owned, status, found, cursor, limit).nextCursor.Some?
    ensures var page := AllJobsPage(rows, owned, status, found, cursor, limit);
            var view := ViewTable(rows, owned, status);
            && |page.items| == limit
            && Resolve(view, page.nextCursor) == Some(page.items[limit - 1])
            && page.items[limit - 1] in After(Matching(view), Resolve(view, cursor))
  {
    hide ListPage;
    var view := ViewTable(rows, owned, status);
    if cursor.None? || cursor.value !in rows || rows[cursor.value].campaign !in owned {
      NarrowedPage(AllJobsTable(rows, owned, status, found), view, None, limit);
    } else if status == Some(Sent) && rows[cursor.value].sentAt.None? {
      NarrowedPage(BeyondUnsentTable(rows, owned, cursor.value), view, None, limit);
    } else {
      NarrowedPage(view, view, cursor, limit);
    }
  }

  lemma NextAllJobsPageIsSmaller(rows: Rows, owned: set<CampaignId>, status: Option<JobStatus>, found: set<JobId>,
                                 cursor: Option<JobId>, limit: nat)
    requires limit >= 1 && AllJobsPage(rows, owned, status, found, cursor, limit).nextCursor.Some?
    ensures var page := AllJobsPage(rows, owned, status, found, cursor, limit);
            var view := ViewTable(rows, owned, status);
            |After(Matching(view), Resolve(view, page.nextCursor))| < |After(Matching(view), Resolve(view, cursor))|
  {
    AllJobsCursorResolves(rows, owned, status, found, cursor, limit);
    hide AllJobsPage, ViewTable, Resolve;
    var page, view := AllJobsPage(rows, owned, status, found, cursor, limit), ViewTable(rows, owned, status);
    var here, there := After(Matching(view), Resolve(view, cursor)), After(Matching(view), Resolve(view, page.nextCursor));
    var last := page.items[limit - 1];
    assert there <= here - {last};
    Sets.SubsetSize(there, here - {last});
  }

  /** Everything a client collects by following `nextCursor` until it is null. */
  ghost function FollowAllJobs(rows: Rows, owned: set<CampaignId>, status: Option<JobStatus>, found: set<JobId>,
                               cursor: Option<JobId>, limit: nat): seq<Key>
    requires limit >= 1
    decreases |After(Matching(ViewTable(rows, owned, status)), Resolve(ViewTable(rows, owned, status), cursor))|
  {
    var page := AllJobsPage(rows, owned, status, found, cursor, limit);
    if page.nextCursor.None? then page.items
    else
      NextAllJobsPageIsSmaller(rows, owned, status, found, cursor, limit);
      page.items + FollowAllJobs(rows, owned, status, found, page.nextCursor, limit)
  }

  lemma LaterPageIsOfTheView(rows: Rows, owned: set<CampaignId>, status: Option<JobStatus>, found: set<JobId>,
                             cursor: Option<JobId>, limit: nat)
    requires limit >= 1 && Resolve(ViewTable(rows, owned, status), cursor).Some?
    ensures AllJobsPage(rows, owned, status, found, cursor, limit) == ListPage(ViewTable(rows, owned, status), cursor, limit)
  {
    hide ListPage;
  }

  /** Once the cursor resolves, the client walks the view without the search. */
  lemma {:induction false} LaterPagesDropTheSearch(rows: Rows, owned: set<CampaignId>, status: Option<JobStatus>,
                                                   found: set<JobId>, cursor: Option<JobId>, limit: nat)
    requires limit >= 1 && Resolve(ViewTable(rows, owned, status), cursor).Some?
    ensures Valid(ViewTable(rows, owned, status))
    ensures FollowAllJobs(rows, owned, status, found, cursor, limit) == Follow(ViewTable(rows, owned, status), cursor, limit)
    decreases |After(Matching(ViewTable(rows, owned, status)), Resolve(ViewTable(rows, owned, status), cursor))|
  {
    var view := ViewTable(rows, owned, status);
    AllJobsTableIsValid(rows, owned, status, rows.Keys);
    var page := AllJobsPage(rows, owned, status, found, cursor, limit);
    LaterPageIsOfTheView(rows, owned, status, found, cursor, limit);
    if page.nextCursor.Some? {
      AllJobsCursorResolves(rows, owned, status, found, cursor, limit);
      NextAllJobsPageIsSmaller(rows, owned, status, found, cursor, limit);
      LaterPagesDropTheSearch(rows, owned, status, found, page.nextCursor, limit);
    }
  }

  predicate Viewed(row: Row, owned: set<CampaignId>, status: Option<JobStatus>)
  {
    row.campaign in owned && (status.Some? ==> row.status == status.value)
  }

  predicate Wanted(row: Row, id: JobId, owned: set<CampaignId>, status: Option<JobStatus>, found: set<JobId>)
  {
    Viewed(row, owned, status) && id in found
  }

  /** Where a row stands in the view. */
  function PlaceOf(row: Row, id: JobId, status: Option<JobStatus>): Key
  {
    if status == Some(Sent) && row.sentAt.Some? then Key(-row.sentAt.value, -id) else Key(row.scheduledAt, id)
  }

  lemma AllJobsTableIsValid(rows: Rows, owned: set<CampaignId>, status: Option<JobStatus>, found: set<JobId>)
    ensures Valid(AllJobsTable(rows, owned, status, found))
  {
  }

  lemma WantedRowMatches(rows: Rows, owned: set<CampaignId>, status: Option<JobStatus>, found: set<JobId>, id: JobId)
    requires SentRowsStamped(rows) && id in rows
    ensures Wanted(rows[id], id, owned, status, found) ==>
              PlaceOf(rows[id], id, status) in Matching(AllJobsTable(rows, owned, status, found))
    ensures (status == Some(Sent) ==> rows[id].sentAt.Some?)
              && PlaceOf(rows[id], id, status) in Matching(AllJobsTable(rows, owned, status, found))
            ==> Wanted(rows[id], id, owned, status, found)
  {
    var table, place := AllJobsTable(rows, owned, status, found), PlaceOf(rows[id], id, status);
    if Wanted(rows[id], id, owned, status, found) {
      assert id in table && table[id].matches && table[id].key == place;
    }
    if place in Matching(table) {
      var id2 :| id2 in table && table[id2].matches && table[id2].key == place;
    }
  }

  /** The whole walk: the first page is searched, and the rest of the view follows it. */
  lemma FirstPageThenView(rows: Rows, owned: set<CampaignId>, status: Option<JobStatus>, found: set<JobId>, limit: nat)
    requires limit >= 1
    ensures var table, view := AllJobsTable(rows, owned, status, found), ViewTable(rows, owned, status);
            var first := ListPage(table, None, limit);
            var seen := FollowAllJobs(rows, owned, status, found, None, limit);
            if first.nextCursor.None? then first.items == seen == Ascending(Matching(table))
            else |first.items| == limit && seen == first.items + Ascending(After(Matching(view), Some(first.items[limit - 1])))
                 && Ascending(Matching(table)) == first.items + Ascending(After(Matching(table), Some(first.items[limit - 1])))
  {
    var table, view := AllJobsTable(rows, owned, status, found), ViewTable(rows, owned, status);
    var first := ListPage(table, None, limit);
    AllJobsTableIsValid(rows, owned, status, found);
    PageThenRest(table, None, limit);
    AfterNothing(Matching(table));
    assert AllJobsPage(rows, owned, status, found, None, limit) == first;
    if first.nextCursor.Some? {
      NextCursorResolves(table, None, limit);
      AllJobsCursorResolves(rows, owned, status, found, None, limit);
      LaterPagesDropTheSearch(rows, owned, status, found, first.nextCursor, limit);
      FollowIsComplete(view, first.nextCursor, limit);
    }
    hide ListPage, AllJobsTable, Follow;
  }

  /** Beyond the last row of the first page, when there is a second one. */
  ghost predicate BeyondFirst(rows: Rows, owned: set<CampaignId>, status: Option<JobStatus>, found: set<JobId>,
                              limit: nat, key: Key)
    requires limit >= 1
  {
    var first := ListPage(AllJobsTable(rows, owned, status, found), None, limit);
    first.nextCursor.Some? && |first.items| == limit && Before(first.items[limit - 1], key)
  }

  lemma WalkMembers(rows: Rows, owned: set<CampaignId>, status: Option<JobStatus>, found: set<JobId>, limit: nat, key: Key)
    requires limit >= 1
    ensures key in FollowAllJobs(rows, owned, status, found, None, limit) <==>
              || key in Matching(AllJobsTable(rows, owned, status, found))
              || (key in Matching(ViewTable(rows, owned, status)) && BeyondFirst(rows, owned, status, found, limit, key))
  {
    hide FollowAllJobs, ListPage, AllJobsTable, ViewTable;
    var table, view := AllJobsTable(rows, owned, status, found), ViewTable(rows, owned, status);
    var first := ListPage(table, None, limit);
    FirstPageThenView(rows, owned, status, found, limit);
    AscendingMeaning(Matching(table));
    if first.nextCursor.Some? {
      var last := Some(first.items[limit - 1]);
      AscendingMeaning(After(Matching(table), last));
      AscendingMeaning(After(Matching(view), last));
      TableIsWithinView(rows, owned, status, found);
    }
  }

  lemma TableIsWithinView(rows: Rows, owned: set<CampaignId>, status: Option<JobStatus>, found: set<JobId>)
    ensures Matching(AllJobsTable(rows, owned, status, found)) <= Matching(ViewTable(rows, owned, status))
  {
    var table, view := AllJobsTable(rows, owned, status, found), ViewTable(rows, owned, status);
    forall key | key in Matching(table)
      ensures key in Matching(view)
    {
      var id :| id in table && table[id].matches && table[id].key == key;
      assert id in view && view[id].matches && view[id].key == key;
    }
  }

  /**
   What a client sees of all jobs, for every view and every search: each job at most once and in order,
   and exactly the wanted ones and those of the view, wanted or not, beyond the first page.
   */
  lemma ListAllJobsShowsExactly(rows: Rows, owned: set<CampaignId>, status: Option<JobStatus>, found: set<JobId>,
                                limit: nat, id: JobId)
    requires limit >= 1 && SentRowsStamped(rows) && id in rows
    requires status == Some(Sent) ==> rows[id].sentAt.Some?
    ensures var seen := FollowAllJobs(rows, owned, status, found, None, limit);
            && Increasing(seen)
            && (PlaceOf(rows[id], id, status) in seen <==>
                  || Wanted(rows[id], id, owned, status, found)
                  || (Viewed(rows[id], owned, status)
                      && BeyondFirst(rows, owned, status, found, limit, PlaceOf(rows[id], id, status))))
  {
    hide FollowAllJobs, BeyondFirst, AllJobsTable;
    WalkIsInOrder(rows, owned, status, found, limit);
    WalkMembers(rows, owned, status, found, limit, PlaceOf(rows[id], id, status));
    WantedRowMatches(rows, owned, status, found, id);
    WantedRowMatches(rows, owned, status, rows.Keys, id);
  }

  lemma WalkIsInOrder(rows: Rows, owned: set<CampaignId>, status: Option<JobStatus>, found: set<JobId>, limit: nat)
    requires limit >= 1
    ensures Increasing(FollowAllJobs(rows, owned, status, found, None, limit))
  {
    hide FollowAllJobs, AllJobsTable, ViewTable;
    var table, view := AllJobsTable(rows, owned, status, found), ViewTable(rows, owned, status);
    var first := ListPage(table, None, limit);
    FirstPageThenView(rows, owned, status, found, limit);
    PageIsInOrder(table, None, limit);
    if first.nextCursor.Some? {
      var last := first.items[limit - 1];
      AscendingMeaning(After(Matching(view), Some(last)));
      var rest := Ascending(After(Matching(view), Some(last)));
      assert forall i :: 0 <= i < |rest| ==> rest[i] in After(Matching(view), Some(last));
      PageThenLater(first.items, rest, None);
    }
  }

  /**
   The walk yields exactly the wanted jobs, in order and each once, if and only if every job of the view
   beyond the first page matches the search.
   */
  lemma ListAllJobsIsComplete(rows: Rows, owned: set<CampaignId>, status: Option<JobStatus>, found: set<JobId>, limit: nat)
    requires limit >= 1 && SentRowsStamped(rows)
    ensures var table := AllJobsTable(rows, owned, status, found);
            FollowAllJobs(rows, owned, status, found, None, limit) == Ascending(Matching(table))
            <==> SearchIsSettled(rows, owned, status, found, limit)
  {
    hide FollowAllJobs, AllJobsTable;
    var table, view := AllJobsTable(rows, owned, status, found), ViewTable(rows, owned, status);
    var first := ListPage(table, None, limit);
    FirstPageThenView(rows, owned, status, found, limit);
    if SearchIsSettled(rows, owned, status, found, limit) {
      if first.nextCursor.Some? {
        SettledViewIsTable(rows, owned, status, found, limit);
      }
    } else {
      var id :| id in rows && Unwanted(rows, owned, status, found, limit, id);
      var place := PlaceOf(rows[id], id, status);
      ListAllJobsShowsExactly(rows, owned, status, found, limit, id);
      WantedRowMatches(rows, owned, status, found, id);
      AscendingMeaning(Matching(table));
    }
  }

  /** A job of the view, beyond the first page, that the search does not match. */
  ghost predicate Unwanted(rows: Rows, owned: set<CampaignId>, status: Option<JobStatus>, found: set<JobId>,
                           limit: nat, id: JobId)
    requires limit >= 1 && id in rows
  {
    && Viewed(rows[id], owned, status) && id !in found
    && BeyondFirst(rows, owned, status, found, limit, PlaceOf(rows[id], id, status))
  }

  ghost predicate SearchIsSettled(rows: Rows, owned: set<CampaignId>, status: Option<JobStatus>, found: set<JobId>, limit: nat)
    requires limit >= 1
  {
    forall id :: id in rows ==> !Unwanted(rows, owned, status, found, limit, id)
  }

  lemma SettledViewIsTable(rows: Rows, owned: set<CampaignId>, status: Option<JobStatus>, found: set<JobId>, limit: nat)
    requires limit >= 1 && SearchIsSettled(rows, owned, status, found, limit)
    requires var first := ListPage(AllJobsTable(rows, owned, status, found), None, limit);
             first.nextCursor.Some? && |first.items| == limit
    ensures var last := ListPage(AllJobsTable(rows, owned, status, found), None, limit).items[limit - 1];
            After(Matching(ViewTable(rows, owned, status)), Some(last))
            == After(Matching(AllJobsTable(rows, owned, status, found)), Some(last))
  {
    hide ListPage;
    var table, view := AllJobsTable(rows, owned, status, found), ViewTable(rows, owned, status);
    var last := ListPage(table, None, limit).items[limit - 1];
    TableIsWithinView(rows, owned, status, found);
    forall key | key in After(Matching(view), Some(last))
      ensures key in Matching(table)
    {
      var id :| id in view && view[id].matches && view[id].key == key;
      assert !Unwanted(rows, owned, status, found, limit, id);
      assert id in table && table[id].matches && table[id].key == key;
    }
  }

  /** Without a search the walk is always complete. */
  lemma WithoutSearchNothingIsMissed(rows: Rows, owned: set<CampaignId>, status: Option<JobStatus>, limit: nat)
    requires limit >= 1 && SentRowsStamped(rows)
    ensures FollowAllJobs(rows, owned, status, rows.Keys, None, limit) == Ascending(Matching(ViewTable(rows, owned, status)))
  {
    hide BeyondFirst, FollowAllJobs;
    ListAllJobsIsComplete(rows, owned, status, rows.Keys, limit);
  }

  /** Three jobs due one after the other, of which the search matches the first and the last. */
  function ThreeJobs(): Rows
  {
    map[1 := Row(1, "s", 0, 10, Scheduled, None, 0, None),
        2 := Row(1, "s", 1, 20, Scheduled, None, 0, None),
        3 := Row(1, "s", 2, 30, Scheduled, None, 0, None)]
  }

  lemma FirstOfThree()
    ensures ListPage(AllJobsTable(ThreeJobs(), {1}, None, {1, 3}), None, 1).items == [Key(10, 1)]
    ensures ListPage(AllJobsTable(ThreeJobs(), {1}, None, {1, 3}), None, 1).nextCursor.Some?
  {
    hide ListPage;
    var table := AllJobsTable(ThreeJobs(), {1}, None, {1, 3});
    var matching := Matching(table);
    assert table[1] == Entry(Key(10, 1), true) && table[2] == Entry(Key(20, 2), false) && table[3] == Entry(Key(30, 3), true);
    assert matching == {Key(10, 1), Key(30, 3)};
    AfterNothing(matching);
    PageItems(table, None, 1);
    AscendingMeaning(matching);
    assert Least(matching) == Key(10, 1);
    assert Ascending(matching)[..1] == [Key(10, 1)];
  }

  /** With pages of one, the second page shows the job that does not match. */
  lemma SearchIsDropped()
    ensures !Wanted(ThreeJobs()[2], 2, {1}, None, {1, 3})
    ensures PlaceOf(ThreeJobs()[2], 2, None) in FollowAllJobs(ThreeJobs(), {1}, None, {1, 3}, None, 1)
    ensures !SearchIsSettled(ThreeJobs(), {1}, None, {1, 3}, 1)
  {
    hide ListPage, AllJobsTable, FollowAllJobs;
    FirstOfThree();
    assert Unwanted(ThreeJobs(), {1}, None, {1, 3}, 1, 2);
    ListAllJobsShowsExactly(ThreeJobs(), {1}, None, {1, 3}, 1, 2);
  }

  // ---- Statuses that change between pages ------------------------------------------------------

  /** Two moments of one table: rows may come in and match or not, but each keeps its place. */
  ghost predicate KeepsPlaces(a: Table, b: Table)
  {
    forall id :: id in a ==> id in b && a[id].key == b[id].key
  }

  datatype Walk = Walk(items: seq<Key>, finished: bool)

  /** What a client collects when page `n` is read from the `n`-th moment. */
  ghost function FollowChanging(moments: seq<Table>, cursor: Option<int>, limit: nat): Walk
    requires limit >= 1
    decreases |moments|
  {
    if moments == [] then Walk([], false)
    else
      var page := ListPage(moments[0], cursor, limit);
      if page.nextCursor.None? then Walk(page.items, true)
      else
        var rest := FollowChanging(moments[1..], page.nextCursor, limit);
        Walk(page.items + rest.items, rest.finished)
  }

  /** A matching row beyond the anchor is on this page, or lies beyond its last item. */
  lemma PageLeavesNoGap(table: Table, cursor: Option<int>, limit: nat, key: Key)
    requires limit >= 1 && key in After(Matching(table), Resolve(table, cursor))
    ensures var page := ListPage(table, cursor, limit);
            || key in page.items
            || (page.nextCursor.Some? && |page.items| == limit && Before(page.items[limit - 1], key))
  {
    var here := After(Matching(table), Resolve(table, cursor));
    AscendingMeaning(here);
    var i :| 0 <= i < |Ascending(here)| && Ascending(here)[i] == key;
    var page := ListPage(table, cursor, limit);
    if i < |page.items| {
      assert page.items[i] == key;
    }
  }

  ghost predicate Moments(moments: seq<Table>)
  {
    && (forall i :: 0 <= i < |moments| ==> Valid(moments[i]))
    && (forall i, j :: 0 <= i < j < |moments| ==> KeepsPlaces(moments[i], moments[j]))
  }

  /** The next moment resolves this page's cursor to the same place. */
  lemma NextMomentResolves(moments: seq<Table>, cursor: Option<int>, limit: nat)
    requires limit >= 1 && |moments| > 1 && Moments(moments) && ListPage(moments[0], cursor, limit).nextCursor.Some?
    ensures var page := ListPage(moments[0], cursor, limit);
            |page.items| == limit && Resolve(moments[1], page.nextCursor) == Some(page.items[limit - 1])
  {
    NextCursorResolves(moments[0], cursor, limit);
    assert KeepsPlaces(moments[0], moments[1]);
  }

  lemma MomentsTail(moments: seq<Table>)
    requires Moments(moments) && moments != []
    ensures Moments(moments[1..])
  {
  }

  /** No row is listed twice, whatever happens to the statuses in between. */
  lemma {:induction false} ChangingWalkNeverRepeats(moments: seq<Table>, cursor: Option<int>, limit: nat)
    requires limit >= 1 && Moments(moments)
    ensures Increasing(FollowChanging(moments, cursor, limit).items)
    ensures moments != [] ==> AllAfter(FollowChanging(moments, cursor, limit).items, Resolve(moments[0], cursor))
    decreases |moments|
  {
    if moments != [] {
      hide Moments, ListPage, Resolve;
      var page := ListPage(moments[0], cursor, limit);
      PageIsInOrder(moments[0], cursor, limit);
      if page.nextCursor.Some? {
        MomentsTail(moments);
        ChangingWalkNeverRepeats(moments[1..], page.nextCursor, limit);
        if |moments| > 1 {
          NextMomentResolves(moments, cursor, limit);
          PageThenLater(page.items, FollowChanging(moments[1..], page.nextCursor, limit).items, Resolve(moments[0], cursor));
        } else {
          assert page.items + [] == page.items;
        }
      }
    }
  }

  /** A row that matches the filter all along is listed by a walk that reaches the end. */
  lemma {:induction false} ChangingWalkMissesNothing(moments: seq<Table>, cursor: Option<int>, limit: nat, key: Key)
    requires limit >= 1 && Moments(moments) && FollowChanging(moments, cursor, limit).finished
    requires forall i :: 0 <= i < |moments| ==> key in Matching(moments[i])
    requires moments != [] && (Resolve(moments[0], cursor).Some? ==> Before(Resolve(moments[0], cursor).value, key))
    ensures key in FollowChanging(moments, cursor, limit).items
    decreases |moments|
  {
    var page := ListPage(moments[0], cursor, limit);
    PageLeavesNoGap(moments[0], cursor, limit, key);
    if key !in page.items {
      NextCursorResolves(moments[0], cursor, limit);
      assert KeepsPlaces(moments[0], moments[1]);
      assert Resolve(moments[1], page.nextCursor) == Some(page.items[limit - 1]);
      ChangingWalkMissesNothing(moments[1..], page.nextCursor, limit, key);
    }
  }

  /** Moments of the ledger: the campaign's rows are fixed, only their statuses differ. */
  ghost predicate SameJobs(a: Rows, b: Rows, campaign: CampaignId)
  {
    && (forall id :: id in a && a[id].campaign == campaign ==>
          id in b && b[id].campaign == campaign && b[id].sequenceNumber == a[id].sequenceNumber)
    && (forall id :: id in b && b[id].campaign == campaign ==> id in a && a[id].campaign == campaign)
  }

  lemma SameJobsKeepPlaces(a: Rows, b: Rows, campaign: CampaignId, status: Option<JobStatus>)
    requires SameJobs(a, b, campaign)
    ensures KeepsPlaces(JobTable(a, campaign, status), JobTable(b, campaign, status))
  {
    var ta, tb := JobTable(a, campaign, status), JobTable(b, campaign, status);
    assert forall id :: id in ta <==> id in tb;
  }

  function JobTables(snapshots: seq<Rows>, campaign: CampaignId, status: Option<JobStatus>): seq<Table>
  {
    seq(|snapshots|, (i: nat) requires i < |snapshots| => JobTable(snapshots[i], campaign, status))
  }

  ghost predicate MatchesThroughout(snapshots: seq<Rows>, campaign: CampaignId, status: Option<JobStatus>, id: JobId)
  {
    forall i :: 0 <= i < |snapshots| ==>
      && id in snapshots[i] && snapshots[i][id].campaign == campaign
      && (status.Some? ==> snapshots[i][id].status == status.value)
  }

  /**
   Paging through a campaign's jobs while statuses change: no job repeats, and once the last page is
   reached every job that matched the filter throughout has been listed.
   */
  lemma ChangingJobsAreListedOnce(snapshots: seq<Rows>, campaign: CampaignId, status: Option<JobStatus>,
                                  limit: nat, id: JobId)
    requires limit >= 1 && snapshots != [] && DistinctPositions(snapshots[0], campaign)
    requires forall i, j :: 0 <= i < j < |snapshots| ==> SameJobs(snapshots[i], snapshots[j], campaign)
    ensures var walk := FollowChanging(JobTables(snapshots, campaign, status), None, limit);
            && Increasing(walk.items)
            && (walk.finished && MatchesThroughout(snapshots, campaign, status, id)
                ==> Key(snapshots[0][id].sequenceNumber, 0) in walk.items)
  {
    var moments := JobTables(snapshots, campaign, status);
    forall i | 0 <= i < |moments|
      ensures Valid(moments[i])
    {
      if i > 0 {
        assert SameJobs(snapshots[0], snapshots[i], campaign);
      }
      JobTableIsValid(snapshots[i], campaign, status);
    }
    forall i, j | 0 <= i < j < |moments|
      ensures KeepsPlaces(moments[i], moments[j])
    {
      SameJobsKeepPlaces(snapshots[i], snapshots[j], campaign, status);
    }
    ChangingWalkNeverRepeats(moments, None, limit);
    if FollowChanging(moments, None, limit).finished && MatchesThroughout(snapshots, campaign, status, id) {
      var key := Key(snapshots[0][id].sequenceNumber, 0);
      forall i | 0 <= i < |moments|
        ensures key in Matching(moments[i])
      {
        if i > 0 {
          assert SameJobs(snapshots[0], snapshots[i], campaign);
        }
        assert id in moments[i] && moments[i][id].matches && moments[i][id].key == key;
      }
      ChangingWalkMissesNothing(moments, None, limit, key);
    }
  }

  /** Between two moments rows may come in, and every job stays the job it was. */
  ghost predicate KeepsJobs(a: Rows, b: Rows)
  {
    forall id :: id in a ==> id in b && KeepsJob(a[id], b[id])
  }

  lemma KeptJobsKeepPlaces(a: Rows, b: Rows, owned: set<CampaignId>, status: Option<JobStatus>,
                           foundA: set<JobId>, foundB: set<JobId>)
    requires KeepsJobs(a, b)
    ensures KeepsPlaces(AllJobsTable(a, owned, status, foundA), AllJobsTable(b, owned, status, foundB))
  {
  }

  /** What a client collects when page `n` of all jobs is read from the `n`-th moment. */
  ghost function FollowAllChanging(snapshots: seq<Rows>, owned: set<CampaignId>, status: Option<JobStatus>,
                                   found: set<JobId>, cursor: Option<JobId>, limit: nat): Walk
    requires limit >= 1
    decreases |snapshots|
  {
    if snapshots == [] then Walk([], false)
    else
      var page := AllJobsPage(snapshots[0], owned, status, found, cursor, limit);
      if page.nextCursor.None? then Walk(page.items, true)
      else
        var rest := FollowAllChanging(snapshots[1..], owned, status, found, page.nextCursor, limit);
        Walk(page.items + rest.items, rest.finished)
  }

  function ViewTables(snapshots: seq<Rows>, owned: set<CampaignId>, status: Option<JobStatus>): seq<Table>
  {
    seq(|snapshots|, (i: nat) requires i < |snapshots| => ViewTable(snapshots[i], owned, status))
  }

  ghost predicate JobMoments(snapshots: seq<Rows>)
  {
    forall i, j :: 0 <= i < j < |snapshots| ==> KeepsJobs(snapshots[i], snapshots[j])
  }

  lemma NextMomentKnowsCursor(snapshots: seq<Rows>, owned: set<CampaignId>, status: Option<JobStatus>,
                              found: set<JobId>, cursor: Option<JobId>, limit: nat)
    requires limit >= 1 && |snapshots| > 1 && JobMoments(snapshots)
    requires AllJobsPage(snapshots[0], owned, status, found, cursor, limit).nextCursor.Some?
    ensures Resolve(ViewTable(snapshots[1], owned, status),
                    AllJobsPage(snapshots[0], owned, status, found, cursor, limit).nextCursor).Some?
  {
    AllJobsCursorResolves(snapshots[0], owned, status, found, cursor, limit);
    KeptJobsKeepPlaces(snapshots[0], snapshots[1], owned, status, snapshots[0].Keys, snapshots[1].Keys);
    hide AllJobsPage, AllJobsTable;
  }

  /** From a cursor that resolves, the walk is through the moments of the view. */
  lemma {:induction false} LaterMomentsAreTheView(snapshots: seq<Rows>, owned: set<CampaignId>, status: Option<JobStatus>,
                                                  found: set<JobId>, cursor: Option<JobId>, limit: nat)
    requires limit >= 1 && JobMoments(snapshots)
    requires snapshots != [] ==> Resolve(ViewTable(snapshots[0], owned, status), cursor).Some?
    ensures FollowAllChanging(snapshots, owned, status, found, cursor, limit)
         == FollowChanging(ViewTables(snapshots, owned, status), cursor, limit)
    decreases |snapshots|
  {
    hide AllJobsPage, ListPage, ViewTable, Resolve;
    if snapshots != [] {
      var page := AllJobsPage(snapshots[0], owned, status, found, cursor, limit);
      LaterPageIsOfTheView(snapshots[0], owned, status, found, cursor, limit);
      assert ViewTables(snapshots, owned, status)[1..] == ViewTables(snapshots[1..], owned, status);
      if page.nextCursor.Some? {
        if |snapshots| > 1 {
          NextMomentKnowsCursor(snapshots, owned, status, found, cursor, limit);
        }
        LaterMomentsAreTheView(snapshots[1..], owned, status, found, page.nextCursor, limit);
      }
    }
  }

  /** The tables behind the pages: the first is searched, the later ones are not. */
  function SearchedOnce(snapshots: seq<Rows>, owned: set<CampaignId>, status: Option<JobStatus>, found: set<JobId>): seq<Table>
    requires snapshots != []
  {
    [AllJobsTable(snapshots[0], owned, status, found)] + ViewTables(snapshots[1..], owned, status)
  }

  lemma WalkIsSearchedOnce(snapshots: seq<Rows>, owned: set<CampaignId>, status: Option<JobStatus>,
                           found: set<JobId>, limit: nat)
    requires limit >= 1 && snapshots != [] && JobMoments(snapshots)
    ensures FollowAllChanging(snapshots, owned, status, found, None, limit)
         == FollowChanging(SearchedOnce(snapshots, owned, status, found), None, limit)
  {
    var tables := SearchedOnce(snapshots, owned, status, found);
    var page := AllJobsPage(snapshots[0], owned, status, found, None, limit);
    assert page == ListPage(tables[0], None, limit);
    assert tables[1..] == ViewTables(snapshots[1..], owned, status);
    if page.nextCursor.Some? {
      if |snapshots| > 1 {
        NextMomentKnowsCursor(snapshots, owned, status, found, None, limit);
      }
      LaterMomentsAreTheView(snapshots[1..], owned, status, found, page.nextCursor, limit);
    }
    hide ListPage, AllJobsTable;
  }

  lemma SearchedOnceIsMoments(snapshots: seq<Rows>, owned: set<CampaignId>, status: Option<JobStatus>, found: set<JobId>)
    requires snapshots != [] && JobMoments(snapshots)
    ensures Moments(SearchedOnce(snapshots, owned, status, found))
  {
    var tables := SearchedOnce(snapshots, owned, status, found);
    forall i | 0 <= i < |tables|
      ensures Valid(tables[i])
    {
      AllJobsTableIsValid(snapshots[i], owned, status, if i == 0 then found else snapshots[i].Keys);
    }
    forall i, j | 0 <= i < j < |tables|
      ensures KeepsPlaces(tables[i], tables[j])
    {
      KeptJobsKeepPlaces(snapshots[i], snapshots[j], owned, status,
                         if i == 0 then found else snapshots[i].Keys, snapshots[j].Keys);
    }
  }

  ghost predicate WantedThroughout(snapshots: seq<Rows>, owned: set<CampaignId>, status: Option<JobStatus>,
                                   found: set<JobId>, id: JobId)
  {
    forall i :: 0 <= i < |snapshots| ==> id in snapshots[i] && Wanted(snapshots[i][id], id, owned, status, found)
  }

  lemma WantedJobsMatch(snapshots: seq<Rows>, owned: set<CampaignId>, status: Option<JobStatus>, found: set<JobId>,
                        id: JobId, i: nat)
    requires i < |snapshots| && WantedThroughout(snapshots, owned, status, found, id) && JobMoments(snapshots)
    requires SentRowsStamped(snapshots[0]) && SentRowsStamped(snapshots[i])
    ensures id in snapshots[0]
    ensures PlaceOf(snapshots[0][id], id, status) in Matching(SearchedOnce(snapshots, owned, status, found)[i])
  {
    assert Wanted(snapshots[0][id], id, owned, status, found) && Wanted(snapshots[i][id], id, owned, status, found);
    if i == 0 {
      WantedRowMatches(snapshots[0], owned, status, found, id);
    } else {
      WantedRowMatches(snapshots[i], owned, status, snapshots[i].Keys, id);
      assert KeepsJobs(snapshots[0], snapshots[i]);
    }
  }

  /**
   Paging through all jobs while statuses change and rows come in: in every view, the SENT tab included,
   and with any search, no job repeats, and a job wanted throughout has been listed once the last page is
   reached.
   */
  lemma ChangingAllJobsAreListedOnce(snapshots: seq<Rows>, owned: set<CampaignId>, status: Option<JobStatus>,
                                     found: set<JobId>, limit: nat, id: JobId)
    requires limit >= 1 && snapshots != [] && JobMoments(snapshots)
    requires forall i :: 0 <= i < |snapshots| ==> SentRowsStamped(snapshots[i])
    ensures var walk := FollowAllChanging(snapshots, owned, status, found, None, limit);
            && Increasing(walk.items)
            && (walk.finished && WantedThroughout(snapshots, owned, status, found, id) ==>
                  id in snapshots[0] && PlaceOf(snapshots[0][id], id, status) in walk.items)
  {
    hide JobMoments, AllJobsTable, SentRowsStamped, WantedThroughout, PlaceOf;
    var moments := SearchedOnce(snapshots, owned, status, found);
    WalkIsSearchedOnce(snapshots, owned, status, found, limit);
    SearchedOnceIsMoments(snapshots, owned, status, found);
    ChangingWalkNeverRepeats(moments, None, limit);
    if FollowChanging(moments, None, limit).finished && WantedThroughout(snapshots, owned, status, found, id) {
      forall i | 0 <= i < |snapshots|
        ensures id in snapshots[0] && PlaceOf(snapshots[0][id], id, status) in Matching(moments[i])
      {
        WantedJobsMatch(snapshots, owned, status, found, id, i);
      }
      assert id in snapshots[0] by {
        WantedJobsMatch(snapshots, owned, status, found, id, 0);
      }
      ChangingWalkMissesNothing(moments, None, limit, PlaceOf(snapshots[0][id], id, status));
    }
  }
}
