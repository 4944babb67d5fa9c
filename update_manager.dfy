/** The update pass: compute each feed's new items against its stored last
    items, send them to the feed's subscribers, and replace the stored items. */
module Updates {
  import Wrappers
  import Rss
  import Db
  import Telegram

  // ---------------------------------------------------------------------------
  // The difference of fetched items against stored rows.

  /** The guids of the stored rows that have a non-empty one, in row order. */
  function StoredGuids(rows: seq<Db.LastItemRow>): (guids: seq<string>)
    ensures forall r :: r in rows && r.guid != "" ==> r.guid in guids
    ensures forall g :: g in guids ==> g != "" && exists r :: r in rows && r.guid == g
  {
    if rows == [] then []
    else
      var rest := StoredGuids(rows[1..]);
      if rows[0].guid != "" then [rows[0].guid] + rest else rest
  }

  /** The test applied to one fetched item: new when its url is unknown and no
      stored row has a guid, or when its guid is not a stored guid. */
  predicate IsNew(item: Rss.FeedItem, guids: seq<string>, urls: seq<string>) {
    (guids == [] && item.url !in urls) || item.guid !in guids
  }

  /** The items that pass the test, in order. */
  function Select(items: seq<Rss.FeedItem>, guids: seq<string>, urls: seq<string>): seq<Rss.FeedItem>
    decreases |items|
  {
    if items == [] then []
    else
      var last := items[|items| - 1];
      Select(items[..|items| - 1], guids, urls) + (if IsNew(last, guids, urls) then [last] else [])
  }

  /** `__calculate_difference`: all items when nothing is stored, otherwise
      the items that pass the test against the stored rows. */
  function Difference(newItems: seq<Rss.FeedItem>, oldItems: seq<Db.LastItemRow>): seq<Rss.FeedItem> {
    if oldItems == [] then newItems
    else Select(newItems, StoredGuids(oldItems), Db.UrlsOf(oldItems))
  }

  /** `__calculate_difference` as the loop it is. */
  method CalculateDifference(newItems: seq<Rss.FeedItem>, oldItems: seq<Db.LastItemRow>)
    returns (diff: seq<Rss.FeedItem>)
    ensures diff == Difference(newItems, oldItems)
  {
    if oldItems == [] {
      return newItems;
    }
    var guids := StoredGuids(oldItems);
    var urls := Db.UrlsOf(oldItems);
    diff := [];
    for i := 0 to |newItems|
      invariant diff == Select(newItems[..i], guids, urls)
    {
      var item := newItems[i];
      assert newItems[..i + 1][..i] == newItems[..i];
      if guids == [] && item.url !in urls {
        diff := diff + [item];
        continue;
      }
      if item.guid !in guids {
        diff := diff + [item];
      }
    }
    assert newItems[..|newItems|] == newItems;
  }

  // ---------------------------------------------------------------------------
  // What the difference is.

  /** The items whose guid is not among `guids`, in order. */
  function UnseenGuids(items: seq<Rss.FeedItem>, guids: seq<string>): seq<Rss.FeedItem>
    decreases |items|
  {
    if items == [] then []
    else
      var last := items[|items| - 1];
      UnseenGuids(items[..|items| - 1], guids) + (if last.guid !in guids then [last] else [])
  }

  lemma {:induction false} SelectIsUnseenGuids(items: seq<Rss.FeedItem>, guids: seq<string>, urls: seq<string>)
    ensures Select(items, guids, urls) == UnseenGuids(items, guids)
    decreases |items|
  {
    if items != [] {
      SelectIsUnseenGuids(items[..|items| - 1], guids, urls);
    }
  }

  lemma {:induction false} UnseenOfNoGuids(items: seq<Rss.FeedItem>)
    ensures UnseenGuids(items, []) == items
    decreases |items|
  {
    if items != [] {
      UnseenOfNoGuids(items[..|items| - 1]);
    }
  }

  /** The url test never decides: the difference is exactly the items whose
      guid is not a non-empty stored guid, whether or not anything is stored. */
  lemma UrlsNeverConsulted(newItems: seq<Rss.FeedItem>, oldItems: seq<Db.LastItemRow>)
    ensures Difference(newItems, oldItems) == UnseenGuids(newItems, StoredGuids(oldItems))
  {
    if oldItems == [] {
      UnseenOfNoGuids(newItems);
    } else {
      SelectIsUnseenGuids(newItems, StoredGuids(oldItems), Db.UrlsOf(oldItems));
    }
  }

  lemma {:induction false} UnseenMembership(items: seq<Rss.FeedItem>, guids: seq<string>, x: Rss.FeedItem)
    ensures x in UnseenGuids(items, guids) <==> x in items && x.guid !in guids
    decreases |items|
  {
    if items != [] {
      var init := items[..|items| - 1];
      UnseenMembership(init, guids, x);
      assert items == init + [items[|items| - 1]];
    }
  }

  /** An item is reported iff it was fetched and its guid is not a non-empty
      stored guid; its url plays no part. */
  lemma DifferenceMembership(newItems: seq<Rss.FeedItem>, oldItems: seq<Db.LastItemRow>, x: Rss.FeedItem)
    ensures x in Difference(newItems, oldItems) <==> x in newItems && x.guid !in StoredGuids(oldItems)
  {
    UrlsNeverConsulted(newItems, oldItems);
    UnseenMembership(newItems, StoredGuids(oldItems), x);
  }

  /** With a stored guid, an item whose guid was stored is not reported even if
      its url changed, and an item with a new guid is reported even if its url
      was stored. */
  lemma GuidPrecedence(newItems: seq<Rss.FeedItem>, oldItems: seq<Db.LastItemRow>, x: Rss.FeedItem)
    requires x in newItems
    ensures (exists r :: r in oldItems && r.guid != "" && r.guid == x.guid) ==>
            x !in Difference(newItems, oldItems)
    ensures (forall r :: r in oldItems ==> r.guid != x.guid) ==> x in Difference(newItems, oldItems)
  {
    DifferenceMembership(newItems, oldItems, x);
  }

  /** When no stored row has a non-empty guid, every fetched item is new, in
      order: the url comparison cannot exclude any. */
  lemma NoStoredGuidsMeansAllNew(newItems: seq<Rss.FeedItem>, oldItems: seq<Db.LastItemRow>)
    requires forall r :: r in oldItems ==> r.guid == ""
    ensures Difference(newItems, oldItems) == newItems
  {
    UrlsNeverConsulted(newItems, oldItems);
    NoGuidsStored(oldItems);
    UnseenOfNoGuids(newItems);
  }

  lemma {:induction false} NoGuidsStored(rows: seq<Db.LastItemRow>)
    requires forall r :: r in rows ==> r.guid == ""
    ensures StoredGuids(rows) == []
    decreases |rows|
  {
    if rows != [] {
      assert rows[0] in rows;
      assert forall r :: r in rows[1..] ==> r in rows;
      NoGuidsStored(rows[1..]);
    }
  }

  /** Nothing stored: the fetched list itself. */
  lemma EmptyStoreMeansAllNew(newItems: seq<Rss.FeedItem>)
    ensures Difference(newItems, []) == newItems
  {
  }

  lemma {:induction false} UnseenAppend(a: seq<Rss.FeedItem>, b: seq<Rss.FeedItem>, guids: seq<string>)
    ensures UnseenGuids(a + b, guids) == UnseenGuids(a, guids) + UnseenGuids(b, guids)
    decreases |b|
  {
    if b == [] {
      assert a + b == a;
    } else {
      var initB := b[..|b| - 1];
      assert (a + b)[..|a + b| - 1] == a + initB;
      assert (a + b)[|a + b| - 1] == b[|b| - 1];
      UnseenAppend(a, initB, guids);
    }
  }

  /** Each fetched item is judged on its own: the difference of a concatenation
      is the concatenation of the differences. */
  lemma DifferenceAppend(a: seq<Rss.FeedItem>, b: seq<Rss.FeedItem>, oldItems: seq<Db.LastItemRow>)
    ensures Difference(a + b, oldItems) == Difference(a, oldItems) + Difference(b, oldItems)
  {
    UrlsNeverConsulted(a + b, oldItems);
    UrlsNeverConsulted(a, oldItems);
    UrlsNeverConsulted(b, oldItems);
    UnseenAppend(a, b, StoredGuids(oldItems));
  }

  lemma {:induction false} UnseenCount(items: seq<Rss.FeedItem>, guids: seq<string>, x: Rss.FeedItem)
    ensures multiset(UnseenGuids(items, guids))[x] == if x.guid in guids then 0 else multiset(items)[x]
    decreases |items|
  {
    if items != [] {
      var init := items[..|items| - 1];
      UnseenCount(init, guids, x);
      assert items == init + [items[|items| - 1]];
    }
  }

  /** Duplicates are not collapsed: a reported item occurs in the difference
      as often as it was fetched; an item without a guid is always reported. */
  lemma DifferenceMultiplicity(newItems: seq<Rss.FeedItem>, oldItems: seq<Db.LastItemRow>, x: Rss.FeedItem)
    ensures multiset(Difference(newItems, oldItems))[x] ==
            if x.guid in StoredGuids(oldItems) then 0 else multiset(newItems)[x]
    ensures x.guid == "" ==> multiset(Difference(newItems, oldItems))[x] == multiset(newItems)[x]
  {
    UrlsNeverConsulted(newItems, oldItems);
    UnseenCount(newItems, StoredGuids(oldItems), x);
  }

  /** The difference keeps the fetched order: it is the fetched list at the
      increasing positions `idx`. */
  lemma {:induction false} DifferenceIsSubsequence(newItems: seq<Rss.FeedItem>, oldItems: seq<Db.LastItemRow>)
    returns (idx: seq<nat>)
    ensures |idx| == |Difference(newItems, oldItems)| <= |newItems|
    ensures forall k :: 0 <= k < |idx| ==>
              (idx[k] < |newItems| && Difference(newItems, oldItems)[k] == newItems[idx[k]])
    ensures forall k, l :: 0 <= k < l < |idx| ==> idx[k] < idx[l]
  {
    UrlsNeverConsulted(newItems, oldItems);
    idx := UnseenPositions(newItems, StoredGuids(oldItems));
  }

  lemma {:induction false} UnseenPositions(items: seq<Rss.FeedItem>, guids: seq<string>) returns (idx: seq<nat>)
    ensures |idx| == |UnseenGuids(items, guids)| <= |items|
    ensures forall k :: 0 <= k < |idx| ==> (idx[k] < |items| && UnseenGuids(items, guids)[k] == items[idx[k]])
    ensures forall k, l :: 0 <= k < l < |idx| ==> idx[k] < idx[l]
    decreases |items|
  {
    if items == [] {
      idx := [];
    } else {
      var n := |items| - 1;
      var init := items[..n];
      var prev := UnseenPositions(init, guids);
      ghost var before := UnseenGuids(init, guids);
      if items[n].guid !in guids {
        idx := prev + [n];
        forall k | 0 <= k < |idx|
          ensures idx[k] < |items| && UnseenGuids(items, guids)[k] == items[idx[k]]
        {
          if k < |prev| {
            assert idx[k] == prev[k] && before[k] == init[prev[k]];
          }
        }
      } else {
        idx := prev;
        forall k | 0 <= k < |idx|
          ensures idx[k] < |items| && UnseenGuids(items, guids)[k] == items[idx[k]]
        {
          assert before[k] == init[prev[k]];
        }
      }
    }
  }

  /** Running the difference again against the rows the update stores yields
      nothing, provided every item has a guid. */
  lemma DifferenceIdempotent(feedId: nat, newItems: seq<Rss.FeedItem>)
    requires forall x :: x in newItems ==> x.guid != ""
    ensures Difference(newItems, Db.Project(feedId, newItems)) == []
  {
    var rows := Db.Project(feedId, newItems);
    UrlsNeverConsulted(newItems, rows);
    forall x | x in newItems ensures x.guid in StoredGuids(rows) {
      var k :| 0 <= k < |newItems| && newItems[k] == x;
      assert rows[k] in rows && rows[k].guid == x.guid;
    }
    AllSeen(newItems, StoredGuids(rows));
  }

  lemma {:induction false} AllSeen(items: seq<Rss.FeedItem>, guids: seq<string>)
    requires forall x :: x in items ==> x.guid in guids
    ensures UnseenGuids(items, guids) == []
    decreases |items|
  {
    if items != [] {
      var init := items[..|items| - 1];
      assert items[|items| - 1] in items;
      assert forall x :: x in init ==> x in items;
      AllSeen(init, guids);
    }
  }

  function Item(url: string, title: string, guid: string): Rss.FeedItem {
    Rss.FeedItem(url, title, "", guid, Wrappers.None)
  }

  /** A stored row without a guid does not stop the item with its url from
      being reported again: a feed without guids is reported in full on every
      pass that finds anything stored. */
  lemma StoredUrlWithoutGuidIsReported()
    ensures Difference([Item("http://x/1", "", ""), Item("http://x/2", "New", "")],
                       [Db.LastItemRow(1, "http://x/1", "")]) ==
            [Item("http://x/1", "", ""), Item("http://x/2", "New", "")]
  {
    NoStoredGuidsMeansAllNew([Item("http://x/1", "", ""), Item("http://x/2", "New", "")],
                             [Db.LastItemRow(1, "http://x/1", "")]);
  }

  // ---------------------------------------------------------------------------
  // One update pass over all feeds.

  /** The stored rows and the messages handed to the transport so far. */
  datatype PassState = PassState(table: seq<Db.LastItemRow>, outbox: seq<Telegram.Message>)

  /** One feed's turn: fetch, diff, and only when the diff is non-empty send it
      to the subscribers and replace the stored rows by all fetched items. */
  function FeedStep(p: PassState, feed: Db.FeedRow, users: seq<Db.UserRow>, subs: set<Db.Subscription>,
                    parse: string -> Rss.Document): PassState
  {
    var items := Rss.FeedOf(feed.url, parse(feed.url)).items;
    var diff := Difference(items, Db.ItemsOf(p.table, feed.id));
    if diff == [] then p
    else PassState(Db.Replace(p.table, feed.id, items),
              p.outbox + Telegram.Deliveries(Db.SubscribersOf(users, subs, feed.id), diff))
  }

  /** The feeds' turns in list order. */
  function Cycle(feeds: seq<Db.FeedRow>, start: PassState, users: seq<Db.UserRow>, subs: set<Db.Subscription>,
                 parse: string -> Rss.Document): PassState
    decreases |feeds|
  {
    if feeds == [] then start
    else FeedStep(Cycle(feeds[..|feeds| - 1], start, users, subs, parse), feeds[|feeds| - 1], users, subs, parse)
  }

  /** A feed's rows are touched only by its own turn. */
  lemma {:induction false} CycleLeavesOthers(feeds: seq<Db.FeedRow>, start: PassState, users: seq<Db.UserRow>,
                                             subs: set<Db.Subscription>, parse: string -> Rss.Document, other: nat)
    requires other !in Db.IdsOf(feeds)
    ensures Db.ItemsOf(Cycle(feeds, start, users, subs, parse).table, other) == Db.ItemsOf(start.table, other)
    decreases |feeds|
  {
    if feeds != [] {
      var init := feeds[..|feeds| - 1];
      var last := feeds[|feeds| - 1];
      assert Db.IdsOf(init) <= Db.IdsOf(feeds);
      assert last in feeds;
      CycleLeavesOthers(init, start, users, subs, parse, other);
      var p := Cycle(init, start, users, subs, parse);
      Db.ReplaceItems(p.table, last.id, Rss.FeedOf(last.url, parse(last.url)).items, other);
    }
  }

  lemma {:induction false} CycleAppend(a: seq<Db.FeedRow>, b: seq<Db.FeedRow>, start: PassState, users: seq<Db.UserRow>,
                                       subs: set<Db.Subscription>, parse: string -> Rss.Document)
    ensures Cycle(a + b, start, users, subs, parse) == Cycle(b, Cycle(a, start, users, subs, parse), users, subs, parse)
    decreases |b|
  {
    if b == [] {
      assert a + b == a;
    } else {
      var initB := b[..|b| - 1];
      assert (a + b)[..|a + b| - 1] == a + initB;
      assert (a + b)[|a + b| - 1] == b[|b| - 1];
      CycleAppend(a, initB, start, users, subs, parse);
    }
  }

  /** The items a feed's turn stores and sends are judged against the rows the
      pass started with. */
  function DiffAtStart(feed: Db.FeedRow, start: PassState, parse: string -> Rss.Document): seq<Rss.FeedItem> {
    Difference(Rss.FeedOf(feed.url, parse(feed.url)).items, Db.ItemsOf(start.table, feed.id))
  }

  /** With distinct ids, the id at position `k` occurs nowhere else. */
  lemma IdOnlyAt(feeds: seq<Db.FeedRow>, k: nat)
    requires Db.DistinctIds(feeds)
    requires k < |feeds|
    ensures feeds[k].id !in Db.IdsOf(feeds[..k]) && feeds[k].id !in Db.IdsOf(feeds[k + 1..])
  {
    forall g | g in feeds[..k] ensures g.id != feeds[k].id {
      var j :| 0 <= j < k && feeds[..k][j] == g;
      assert feeds[j] == g;
    }
    forall g | g in feeds[k + 1..] ensures g.id != feeds[k].id {
      var j :| 0 <= j < |feeds| - k - 1 && feeds[k + 1..][j] == g;
      assert feeds[k + 1 + j] == g;
    }
  }

  /** After the pass, each listed feed's rows are all of its fetched items when
      its difference was non-empty, and its old rows otherwise; the rows of
      feeds not listed are untouched. */
  lemma CycleBaseline(feeds: seq<Db.FeedRow>, start: PassState, users: seq<Db.UserRow>,
                      subs: set<Db.Subscription>, parse: string -> Rss.Document, k: nat)
    requires Db.DistinctIds(feeds)
    requires k < |feeds|
    ensures var f := feeds[k];
            Db.ItemsOf(Cycle(feeds, start, users, subs, parse).table, f.id) ==
            if DiffAtStart(f, start, parse) == []
            then Db.ItemsOf(start.table, f.id)
            else Db.Project(f.id, Rss.FeedOf(f.url, parse(f.url)).items)
  {
    var f := feeds[k];
    var before := feeds[..k];
    var after := feeds[k + 1..];
    assert feeds == before + [f] + after;
    IdOnlyAt(feeds, k);
    CycleAppend(before + [f], after, start, users, subs, parse);
    var mid := Cycle(before + [f], start, users, subs, parse);
    assert (before + [f])[..|before + [f]| - 1] == before;
    var p := Cycle(before, start, users, subs, parse);
    assert mid == FeedStep(p, f, users, subs, parse);
    CycleLeavesOthers(before, start, users, subs, parse, f.id);
    var items := Rss.FeedOf(f.url, parse(f.url)).items;
    Db.ReplaceItems(p.table, f.id, items, f.id);
    CycleLeavesOthers(after, mid, users, subs, parse, f.id);
  }

  /** The messages of a pass, computed against the rows it started with:
      feed by feed in list order, each feed's difference to its subscribers. */
  function Notifications(feeds: seq<Db.FeedRow>, start: PassState, users: seq<Db.UserRow>,
                         subs: set<Db.Subscription>, parse: string -> Rss.Document): seq<Telegram.Message>
    decreases |feeds|
  {
    if feeds == [] then []
    else
      var last := feeds[|feeds| - 1];
      var diff := DiffAtStart(last, start, parse);
      Notifications(feeds[..|feeds| - 1], start, users, subs, parse) +
      (if diff == [] then [] else Telegram.Deliveries(Db.SubscribersOf(users, subs, last.id), diff))
  }

  /** The pass sends, in feed order, exactly each feed's difference against the
      stored rows to that feed's subscribers, and nothing for a feed whose
      difference is empty. */
  lemma {:induction false} CycleNotifications(feeds: seq<Db.FeedRow>, start: PassState, users: seq<Db.UserRow>,
                                              subs: set<Db.Subscription>, parse: string -> Rss.Document)
    requires Db.DistinctIds(feeds)
    ensures Cycle(feeds, start, users, subs, parse).outbox ==
            start.outbox + Notifications(feeds, start, users, subs, parse)
    decreases |feeds|
  {
    if feeds != [] {
      var n := |feeds| - 1;
      var init := feeds[..n];
      var last := feeds[n];
      assert Db.DistinctIds(init) by {
        forall i, j | 0 <= i < j < |init| ensures init[i].id != init[j].id {
          assert init[i] == feeds[i] && init[j] == feeds[j];
        }
      }
      IdOnlyAt(feeds, n);
      var p := Cycle(init, start, users, subs, parse);
      assert Cycle(feeds, start, users, subs, parse) == FeedStep(p, last, users, subs, parse);
      CycleNotifications(init, start, users, subs, parse);
      CycleLeavesOthers(init, start, users, subs, parse, last.id);
      var diff := DiffAtStart(last, start, parse);
      var rest := Notifications(init, start, users, subs, parse);
      if diff != [] {
        var sent := Telegram.Deliveries(Db.SubscribersOf(users, subs, last.id), diff);
        AppendAssoc(start.outbox, rest, sent);
      } else {
        assert rest + [] == rest;
      }
    }
  }

  lemma AppendAssoc<T>(a: seq<T>, b: seq<T>, c: seq<T>)
    ensures a + b + c == a + (b + c)
  {
  }

  // ---------------------------------------------------------------------------
  // The update manager.

  class UpdateManager {
    const database: Db.Database
    const notifier: Telegram.Notifier
    const reader: Rss.RssReader

    constructor (database: Db.Database, notifier: Telegram.Notifier, reader: Rss.RssReader)
      ensures this.database == database && this.notifier == notifier && this.reader == reader
    {
      this.database := database;
      this.notifier := notifier;
      this.reader := reader;
    }

    /** One feed's turn of `update`. */
    method ProcessFeed(feed: Db.FeedRow)
      requires database.Valid() && notifier.Valid()
      requires feed in database.feeds
      modifies database, notifier
      ensures database.Valid() && notifier.Valid()
      ensures database.users == old(database.users) && database.feeds == old(database.feeds)
      ensures database.subscriptions == old(database.subscriptions)
      ensures database.nextUserId == old(database.nextUserId) && database.nextFeedId == old(database.nextFeedId)
      ensures PassState(database.lastItems, notifier.outbox) ==
              FeedStep(PassState(old(database.lastItems), old(notifier.outbox)), feed,
                       database.users, database.subscriptions, reader.parse)
    {
      var feedObj := reader.GetFeed(feed.url);
      var newItems := feedObj.items;
      var oldItems := database.FindFeedItems(feed.id);
      var diff := CalculateDifference(newItems, oldItems);
      if diff == [] {
        return;
      }
      var chatIds := database.FindFeedSubscribers(feed.id);
      notifier.SendUpdates(chatIds, diff);
      var _ := database.UpdateFeedItems(feed.id, newItems);
    }

    /** `update`: one pass over the feeds in `find_feeds` order. The notifier
        stays valid, so its counters match everything it has sent
        (`Telegram.CountersOfValid`). */
    method Update()
      requires database.Valid() && notifier.Valid()
      modifies database, notifier
      ensures database.Valid() && notifier.Valid()
      ensures database.users == old(database.users) && database.feeds == old(database.feeds)
      ensures database.subscriptions == old(database.subscriptions)
      ensures database.nextUserId == old(database.nextUserId) && database.nextFeedId == old(database.nextFeedId)
      ensures var pass := Cycle(old(database.feeds), PassState(old(database.lastItems), []),
                                old(database.users), old(database.subscriptions), reader.parse);
              && database.lastItems == pass.table
              && notifier.outbox == old(notifier.outbox) + pass.outbox
    {
      var feeds := database.FindFeeds();
      ghost var users, subs := database.users, database.subscriptions;
      ghost var start := PassState(database.lastItems, notifier.outbox);
      for i := 0 to |feeds|
        invariant database.Valid() && notifier.Valid()
        invariant database.users == users && database.feeds == feeds && database.subscriptions == subs
        invariant database.nextUserId == old(database.nextUserId) && database.nextFeedId == old(database.nextFeedId)
        invariant PassState(database.lastItems, notifier.outbox) == Cycle(feeds[..i], start, users, subs, reader.parse)
      {
        assert feeds[..i + 1][..i] == feeds[..i];
        ProcessFeed(feeds[i]);
      }
      assert feeds[..|feeds|] == feeds;
      CycleShifts(feeds, old(database.lastItems), old(notifier.outbox), users, subs, reader.parse);
    }
  }

  /** A pass appends the same messages whatever the outbox already holds. */
  lemma {:induction false} CycleShifts(feeds: seq<Db.FeedRow>, table: seq<Db.LastItemRow>, prefix: seq<Telegram.Message>,
                                       users: seq<Db.UserRow>, subs: set<Db.Subscription>, parse: string -> Rss.Document)
    ensures Cycle(feeds, PassState(table, prefix), users, subs, parse) ==
            PassState(Cycle(feeds, PassState(table, []), users, subs, parse).table,
                 prefix + Cycle(feeds, PassState(table, []), users, subs, parse).outbox)
    decreases |feeds|
  {
    if feeds == [] {
      assert prefix + [] == prefix;
    } else {
      var init := feeds[..|feeds| - 1];
      CycleShifts(init, table, prefix, users, subs, parse);
      FeedStepShifts(Cycle(init, PassState(table, []), users, subs, parse), prefix, feeds[|feeds| - 1], users, subs, parse);
    }
  }

  /** A turn appends the same messages whatever the outbox already holds. */
  lemma FeedStepShifts(p: PassState, prefix: seq<Telegram.Message>, feed: Db.FeedRow, users: seq<Db.UserRow>,
                       subs: set<Db.Subscription>, parse: string -> Rss.Document)
    ensures FeedStep(PassState(p.table, prefix + p.outbox), feed, users, subs, parse) ==
            PassState(FeedStep(p, feed, users, subs, parse).table, prefix + FeedStep(p, feed, users, subs, parse).outbox)
  {
    var items := Rss.FeedOf(feed.url, parse(feed.url)).items;
    var diff := Difference(items, Db.ItemsOf(p.table, feed.id));
    if diff != [] {
      var sent := Telegram.Deliveries(Db.SubscribersOf(users, subs, feed.id), diff);
      AppendAssoc(prefix, p.outbox, sent);
    }
  }
}
