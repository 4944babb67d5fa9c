/** The subscription store: the four relations `users`, `feeds`,
    `subscriptions` and `feeds_last_items`, with the constraints of the
    initial schema, and one member per public operation of `Database`. */
module Db {
  import opened Wrappers
  import opened Exceptions
  import Rss

  datatype UserRow = UserRow(id: nat, telegramId: int)
  datatype FeedRow = FeedRow(id: nat, url: string)
  datatype Subscription = Subscription(userId: nat, feedId: nat)
  datatype LastItemRow = LastItemRow(feedId: nat, url: string, guid: string)

  /** The range of PostgreSQL's 32-bit `INTEGER`, the type of `telegram_id`. */
  const IntegerMin: int := -0x8000_0000
  const IntegerMax: int := 0x7FFF_FFFF

  predicate InIntegerRange(x: int) {
    IntegerMin <= x <= IntegerMax
  }

  // ---------------------------------------------------------------------------
  // Queries over the relations, as functions of the rows.

  /** `SELECT id FROM users WHERE telegram_id = t`. */
  function UserIdOf(users: seq<UserRow>, telegramId: int): (r: Option<nat>)
    ensures r.Some? ==> UserRow(r.value, telegramId) in users
    ensures r.None? <==> forall u :: u in users ==> u.telegramId != telegramId
  {
    if users == [] then None
    else if users[0].telegramId == telegramId then Some(users[0].id)
    else UserIdOf(users[1..], telegramId)
  }

  /** `SELECT id FROM feeds WHERE url = u`. */
  function FeedIdOf(feeds: seq<FeedRow>, url: string): (r: Option<nat>)
    ensures r.Some? ==> FeedRow(r.value, url) in feeds
    ensures r.None? <==> forall f :: f in feeds ==> f.url != url
  {
    if feeds == [] then None
    else if feeds[0].url == url then Some(feeds[0].id)
    else FeedIdOf(feeds[1..], url)
  }

  /** The telegram ids of the users subscribed to a feed, in table order. */
  function SubscribersOf(users: seq<UserRow>, subs: set<Subscription>, feedId: nat): (r: seq<int>)
    ensures forall u :: u in users && Subscription(u.id, feedId) in subs ==> u.telegramId in r
    ensures forall t :: t in r ==>
      exists u :: u in users && u.telegramId == t && Subscription(u.id, feedId) in subs
    ensures |r| <= |users|
  {
    if users == [] then []
    else
      var rest := SubscribersOf(users[1..], subs, feedId);
      if Subscription(users[0].id, feedId) in subs then [users[0].telegramId] + rest else rest
  }

  /** With unique telegram ids, no chat is listed twice. */
  lemma {:induction false} SubscribersDistinct(users: seq<UserRow>, subs: set<Subscription>, feedId: nat)
    ensures DistinctUsers(users) ==>
              forall i, j :: 0 <= i < j < |SubscribersOf(users, subs, feedId)| ==>
                SubscribersOf(users, subs, feedId)[i] != SubscribersOf(users, subs, feedId)[j]
  {
    if users != [] && DistinctUsers(users) {
      var tail := users[1..];
      assert DistinctUsers(tail) by {
        forall i, j | 0 <= i < j < |tail| ensures tail[i].id != tail[j].id && tail[i].telegramId != tail[j].telegramId {
          assert tail[i] == users[i + 1] && tail[j] == users[j + 1];
        }
      }
      SubscribersDistinct(tail, subs, feedId);
      var rest := SubscribersOf(tail, subs, feedId);
      forall t | t in rest ensures t != users[0].telegramId {
        var u :| u in tail && u.telegramId == t && Subscription(u.id, feedId) in subs;
        var k :| 0 <= k < |tail| && tail[k] == u;
        assert users[k + 1] == u;
      }
      var r := SubscribersOf(users, subs, feedId);
      if Subscription(users[0].id, feedId) in subs {
        forall i, j | 0 <= i < j < |r| ensures r[i] != r[j] {
          assert r[j] == rest[j - 1] && rest[j - 1] in rest;
          if i > 0 { assert r[i] == rest[i - 1]; }
        }
      }
    }
  }

  /** The feed rows a user is subscribed to, in table order. */
  function FeedsOfUser(feeds: seq<FeedRow>, subs: set<Subscription>, userId: nat): (r: seq<FeedRow>)
    ensures forall f :: f in r <==> f in feeds && Subscription(userId, f.id) in subs
  {
    if feeds == [] then []
    else
      var rest := FeedsOfUser(feeds[1..], subs, userId);
      if Subscription(userId, feeds[0].id) in subs then [feeds[0]] + rest else rest
  }

  /** `DELETE FROM feeds WHERE id = i`, as the rows that remain. */
  function FeedsWithout(feeds: seq<FeedRow>, feedId: nat): (r: seq<FeedRow>)
    ensures forall f :: f in r <==> f in feeds && f.id != feedId
  {
    if feeds == [] then []
    else
      var rest := FeedsWithout(feeds[1..], feedId);
      if feeds[0].id == feedId then rest else [feeds[0]] + rest
  }

  /** `SELECT * FROM feeds_last_items WHERE feed_id = f`, in table order. */
  function ItemsOf(table: seq<LastItemRow>, feedId: nat): (r: seq<LastItemRow>)
    ensures forall x :: x in r <==> x in table && x.feedId == feedId
  {
    if table == [] then []
    else
      var rest := ItemsOf(table[1..], feedId);
      if table[0].feedId == feedId then [table[0]] + rest else rest
  }

  /** `DELETE FROM feeds_last_items WHERE feed_id = f`, as the rows that remain. */
  function WithoutFeed(table: seq<LastItemRow>, feedId: nat): (r: seq<LastItemRow>)
    ensures forall x :: x in r <==> x in table && x.feedId != feedId
  {
    if table == [] then []
    else
      var rest := WithoutFeed(table[1..], feedId);
      if table[0].feedId == feedId then rest else [table[0]] + rest
  }

  /** The rows `(feed_id, url, guid)` that stand for a list of fetched items. */
  function Project(feedId: nat, items: seq<Rss.FeedItem>): seq<LastItemRow> {
    seq(|items|, i requires 0 <= i < |items| => LastItemRow(feedId, items[i].url, items[i].guid))
  }

  /** The table after a delete-then-insert replacement of one feed's rows. */
  function Replace(table: seq<LastItemRow>, feedId: nat, items: seq<Rss.FeedItem>): seq<LastItemRow> {
    WithoutFeed(table, feedId) + Project(feedId, items)
  }

  function UrlsOf(rows: seq<LastItemRow>): seq<string> {
    seq(|rows|, i requires 0 <= i < |rows| => rows[i].url)
  }

  // ---------------------------------------------------------------------------
  // Lemmas about the last-items relation.

  lemma {:induction false} ItemsOfAppend(a: seq<LastItemRow>, b: seq<LastItemRow>, feedId: nat)
    ensures ItemsOf(a + b, feedId) == ItemsOf(a, feedId) + ItemsOf(b, feedId)
  {
    if a == [] {
      assert a + b == b;
    } else {
      assert (a + b)[0] == a[0] && (a + b)[1..] == a[1..] + b;
      ItemsOfAppend(a[1..], b, feedId);
    }
  }

  lemma {:induction false} ItemsOfWithoutFeed(table: seq<LastItemRow>, feedId: nat, other: nat)
    ensures ItemsOf(WithoutFeed(table, feedId), other) ==
            if other == feedId then [] else ItemsOf(table, other)
  {
    if table != [] {
      ItemsOfWithoutFeed(table[1..], feedId, other);
    }
  }

  lemma {:induction false} ItemsOfProject(feedId: nat, items: seq<Rss.FeedItem>, other: nat)
    ensures ItemsOf(Project(feedId, items), other) ==
            if other == feedId then Project(feedId, items) else []
  {
    if items != [] {
      var p := Project(feedId, items);
      assert p == [p[0]] + Project(feedId, items[1..]);
      ItemsOfProject(feedId, items[1..], other);
    }
  }

  /** After replacing the rows of `feedId` by `items`, the rows of that feed
      are exactly the projection of `items`, in order, and every other feed
      keeps its rows. */
  lemma ReplaceItems(table: seq<LastItemRow>, feedId: nat, items: seq<Rss.FeedItem>, other: nat)
    ensures ItemsOf(Replace(table, feedId, items), other) ==
            if other == feedId then Project(feedId, items) else ItemsOf(table, other)
  {
    ItemsOfAppend(WithoutFeed(table, feedId), Project(feedId, items), other);
    ItemsOfWithoutFeed(table, feedId, other);
    ItemsOfProject(feedId, items, other);
  }

  /** Removing the row at the index of a unique id is the filter `FeedsWithout`. */
  lemma {:induction false} RemoveAtIsFilter(feeds: seq<FeedRow>, k: nat)
    requires k < |feeds|
    requires DistinctIds(feeds)
    ensures feeds[..k] + feeds[k + 1..] == FeedsWithout(feeds, feeds[k].id)
  {
    var id := feeds[k].id;
    var tail := feeds[1..];
    TailDistinct(feeds);
    if k == 0 {
      NoMatchFilter(tail, id);
      assert feeds[..k] + feeds[k + 1..] == tail;
    } else {
      RemoveAtIsFilter(tail, k - 1);
      assert tail[k - 1] == feeds[k];
      SplitAfterHead(feeds, k);
    }
  }

  lemma SplitAfterHead<T>(s: seq<T>, k: nat)
    requires 0 < k < |s|
    ensures s[..k] + s[k + 1..] == [s[0]] + (s[1..][..k - 1] + s[1..][k..])
  {
  }

  /** Distinct ids stay distinct in the tail, and none of them is the head's. */
  lemma TailDistinct(feeds: seq<FeedRow>)
    requires feeds != []
    requires DistinctIds(feeds)
    ensures DistinctIds(feeds[1..])
    ensures forall i :: 0 <= i < |feeds| - 1 ==> feeds[1..][i].id != feeds[0].id
  {
    var tail := feeds[1..];
    forall i, j | 0 <= i < j < |tail| ensures tail[i].id != tail[j].id {
      assert tail[i] == feeds[i + 1] && tail[j] == feeds[j + 1];
    }
    forall i | 0 <= i < |tail| ensures tail[i].id != feeds[0].id {
      assert tail[i] == feeds[i + 1];
    }
  }

  lemma {:induction false} NoMatchFilter(feeds: seq<FeedRow>, id: nat)
    requires forall i :: 0 <= i < |feeds| ==> feeds[i].id != id
    ensures FeedsWithout(feeds, id) == feeds
  {
    if feeds != [] {
      NoMatchFilter(feeds[1..], id);
    }
  }

  ghost predicate DistinctIds(feeds: seq<FeedRow>) {
    forall i, j :: 0 <= i < j < |feeds| ==> feeds[i].id != feeds[j].id
  }

  ghost predicate DistinctUrls(feeds: seq<FeedRow>) {
    forall i, j :: 0 <= i < j < |feeds| ==> feeds[i].url != feeds[j].url
  }

  ghost predicate DistinctUsers(users: seq<UserRow>) {
    forall i, j :: 0 <= i < j < |users| ==>
      users[i].id != users[j].id && users[i].telegramId != users[j].telegramId
  }

  /** The schema constraints over the tables' values. */
  ghost predicate Consistent(users: seq<UserRow>, feeds: seq<FeedRow>, subscriptions: set<Subscription>,
                             lastItems: seq<LastItemRow>, nextUserId: nat, nextFeedId: nat)
  {
    && DistinctUsers(users)
    && (forall u :: u in users ==> u.id < nextUserId && InIntegerRange(u.telegramId))
    && DistinctIds(feeds) && DistinctUrls(feeds)
    && (forall f :: f in feeds ==> f.id < nextFeedId)
    && (forall s :: s in subscriptions ==> s.userId in UserIdsOf(users) && s.feedId in IdsOf(feeds))
    && (forall r :: r in lastItems ==> r.feedId in IdsOf(feeds))
  }

  /** Drawing serial values keeps the constraints. */
  lemma ConsistentDraw(users: seq<UserRow>, feeds: seq<FeedRow>, subs: set<Subscription>,
                       lastItems: seq<LastItemRow>, nextUserId: nat, nextFeedId: nat, nu: nat, nf: nat)
    requires Consistent(users, feeds, subs, lastItems, nextUserId, nextFeedId)
    requires nextUserId <= nu && nextFeedId <= nf
    ensures Consistent(users, feeds, subs, lastItems, nu, nf)
  {
  }

  /** Inserting a user with a fresh telegram id that fits the column and the
      next serial value keeps the constraints. */
  lemma ConsistentAddUser(users: seq<UserRow>, feeds: seq<FeedRow>, subs: set<Subscription>,
                          lastItems: seq<LastItemRow>, nextUserId: nat, nextFeedId: nat, telegramId: int)
    requires Consistent(users, feeds, subs, lastItems, nextUserId, nextFeedId)
    requires forall u :: u in users ==> u.telegramId != telegramId
    requires InIntegerRange(telegramId)
    ensures Consistent(users + [UserRow(nextUserId, telegramId)], feeds, subs, lastItems, nextUserId + 1, nextFeedId)
  {
    UserAppended(users, UserRow(nextUserId, telegramId));
  }

  /** Inserting a feed with a fresh url and the next serial value keeps the
      constraints. */
  lemma ConsistentAddFeed(users: seq<UserRow>, feeds: seq<FeedRow>, subs: set<Subscription>,
                          lastItems: seq<LastItemRow>, nextUserId: nat, nextFeedId: nat, url: string)
    requires Consistent(users, feeds, subs, lastItems, nextUserId, nextFeedId)
    requires forall f :: f in feeds ==> f.url != url
    ensures Consistent(users, feeds + [FeedRow(nextFeedId, url)], subs, lastItems, nextUserId, nextFeedId + 1)
  {
    FeedAppended(feeds, FeedRow(nextFeedId, url));
  }

  /** Deleting a feed nobody subscribes to, with its last items, keeps the
      constraints. */
  lemma ConsistentDeleteFeed(users: seq<UserRow>, feeds: seq<FeedRow>, subs: set<Subscription>,
                             lastItems: seq<LastItemRow>, nextUserId: nat, nextFeedId: nat, feedId: nat)
    requires Consistent(users, feeds, subs, lastItems, nextUserId, nextFeedId)
    requires forall s :: s in subs ==> s.feedId != feedId
    ensures Consistent(users, FeedsWithout(feeds, feedId), subs, WithoutFeed(lastItems, feedId), nextUserId, nextFeedId)
  {
    FeedsWithoutKeepsDistinct(feeds, feedId);
    DeletedFeedValid(feeds, subs, lastItems, feedId);
  }

  // ---------------------------------------------------------------------------
  // The database.

  class Database {
    var users: seq<UserRow>
    var feeds: seq<FeedRow>
    var subscriptions: set<Subscription>
    var lastItems: seq<LastItemRow>
    /** The next values of the `SERIAL` sequences behind `users.id` and `feeds.id`. */
    var nextUserId: nat
    var nextFeedId: nat

    function UserIds(): set<nat> reads this { UserIdsOf(users) }
    function FeedIds(): set<nat> reads this { IdsOf(feeds) }

    /** The schema constraints: unique ids, unique `telegram_id` within the
        `INTEGER` range, unique `url`, and the foreign keys of `subscriptions` and `feeds_last_items`.
        (Uniqueness of the `(user_id, feed_id)` pair is the set itself.) */
    ghost predicate Valid()
      reads this
    {
      Consistent(users, feeds, subscriptions, lastItems, nextUserId, nextFeedId)
    }

    /** A freshly migrated, empty database. */
    constructor ()
      ensures Valid()
      ensures users == [] && feeds == [] && subscriptions == {} && lastItems == []
      ensures nextUserId == 1 && nextFeedId == 1
    {
      users, feeds, subscriptions, lastItems := [], [], {}, [];
      nextUserId, nextFeedId := 1, 1;
    }

    // --- users

    /** `find_user`: the id of the user with that telegram id, if any. */
    function FindUser(telegramId: int): (r: Option<nat>)
      reads this
      ensures r.Some? ==> UserRow(r.value, telegramId) in users
      ensures r.None? <==> forall u :: u in users ==> u.telegramId != telegramId
    {
      UserIdOf(users, telegramId)
    }

    /** `add_user`: inserts a row and returns its new id. A telegram id outside
        the `INTEGER` range is a data error: the literal is converted to the
        column type when the statement is planned, before the default draws a
        serial value, so nothing changes. An existing telegram id violates the
        unique constraint, after the serial value is drawn. */
    method AddUser(telegramId: int) returns (r: Result<nat, Exception>)
      requires Valid()
      modifies this
      ensures Valid()
      ensures !InIntegerRange(telegramId) ==> r == Failure(IntegerOutOfRange) && unchanged(this)
      ensures InIntegerRange(telegramId) ==>
                && nextUserId == old(nextUserId) + 1
                && feeds == old(feeds) && subscriptions == old(subscriptions)
                && lastItems == old(lastItems) && nextFeedId == old(nextFeedId)
      ensures InIntegerRange(telegramId) && old(FindUser(telegramId)).Some? ==>
                r == Failure(Integrity(UniqueTelegramId)) && users == old(users)
      ensures InIntegerRange(telegramId) && old(FindUser(telegramId)).None? ==>
                r == Success(old(nextUserId)) && users == old(users) + [UserRow(old(nextUserId), telegramId)]
      ensures r.Success? ==> FindUser(telegramId) == Some(r.value)
    {
      if !InIntegerRange(telegramId) {
        return Failure(IntegerOutOfRange);
      }
      var id := nextUserId;
      if FindUser(telegramId).Some? {
        ConsistentDraw(users, feeds, subscriptions, lastItems, nextUserId, nextFeedId, nextUserId + 1, nextFeedId);
        nextUserId := nextUserId + 1;
        return Failure(Integrity(UniqueTelegramId));
      }
      ConsistentAddUser(users, feeds, subscriptions, lastItems, nextUserId, nextFeedId, telegramId);
      nextUserId := nextUserId + 1;
      users := users + [UserRow(id, telegramId)];
      UserIdOfAppended(old(users), UserRow(id, telegramId));
      r := Success(id);
    }

    // --- feeds

    /** `find_feed_by_url`. */
    function FindFeedByUrl(url: string): (r: Option<nat>)
      reads this
      ensures r.Some? ==> FeedRow(r.value, url) in feeds
      ensures r.None? <==> forall f :: f in feeds ==> f.url != url
    {
      FeedIdOf(feeds, url)
    }

    /** `add_feed`: inserts a row and returns its new id; an existing url
        violates the unique constraint. */
    method AddFeed(url: string) returns (r: Result<nat, Exception>)
      requires Valid()
      modifies this
      ensures Valid()
      ensures nextFeedId == old(nextFeedId) + 1
      ensures users == old(users) && subscriptions == old(subscriptions)
      ensures lastItems == old(lastItems) && nextUserId == old(nextUserId)
      ensures old(FindFeedByUrl(url)).Some? ==>
                r == Failure(Integrity(UniqueFeedUrl)) && feeds == old(feeds)
      ensures old(FindFeedByUrl(url)).None? ==>
                r == Success(old(nextFeedId)) && feeds == old(feeds) + [FeedRow(old(nextFeedId), url)]
      ensures r.Success? ==> FindFeedByUrl(url) == Some(r.value)
    {
      var id := nextFeedId;
      if FindFeedByUrl(url).Some? {
        ConsistentDraw(users, feeds, subscriptions, lastItems, nextUserId, nextFeedId, nextUserId, nextFeedId + 1);
        nextFeedId := nextFeedId + 1;
        return Failure(Integrity(UniqueFeedUrl));
      }
      ConsistentAddFeed(users, feeds, subscriptions, lastItems, nextUserId, nextFeedId, url);
      nextFeedId := nextFeedId + 1;
      feeds := feeds + [FeedRow(id, url)];
      FeedIdOfAppended(old(feeds), FeedRow(id, url));
      r := Success(id);
    }

    /** `delete_feed`: the rows of its last items go with it (`ON DELETE
        CASCADE`); a feed that still has subscriptions violates their foreign
        key, which does not cascade. */
    method DeleteFeed(feedId: nat) returns (r: Outcome<Exception>)
      requires Valid()
      modifies this
      ensures Valid()
      ensures users == old(users) && subscriptions == old(subscriptions)
      ensures nextUserId == old(nextUserId) && nextFeedId == old(nextFeedId)
      ensures (exists s :: s in old(subscriptions) && s.feedId == feedId) ==>
                r == Fail(Integrity(SubscriptionFeedKey)) && feeds == old(feeds) && lastItems == old(lastItems)
      ensures (forall s :: s in old(subscriptions) ==> s.feedId != feedId) ==>
                r == Pass && feeds == FeedsWithout(old(feeds), feedId) &&
                lastItems == WithoutFeed(old(lastItems), feedId)
      ensures r == Pass ==> feedId !in FeedIds() && ItemsOf(lastItems, feedId) == []
    {
      if exists s :: s in subscriptions && s.feedId == feedId {
        return Fail(Integrity(SubscriptionFeedKey));
      }
      ConsistentDeleteFeed(users, feeds, subscriptions, lastItems, nextUserId, nextFeedId, feedId);
      IdsOfWithout(feeds, feedId);
      feeds := FeedsWithout(feeds, feedId);
      lastItems := WithoutFeed(lastItems, feedId);
      ItemsOfWithoutFeed(old(lastItems), feedId, feedId);
      r := Pass;
    }

    /** `find_feeds`: every feed row, in table order. */
    function FindFeeds(): (r: seq<FeedRow>)
      reads this
      ensures forall f :: f in r <==> f in feeds
    {
      feeds
    }

    // --- subscriptions

    /** `is_user_subscribed`: whether some subscription row has that user id
        and that feed id. */
    function IsUserSubscribed(userId: nat, feedId: nat): (r: bool)
      reads this
      ensures r <==> exists s :: s in subscriptions && s.userId == userId && s.feedId == feedId
    {
      Subscription(userId, feedId) in subscriptions
    }

    /** `subscribe_user`: inserts the pair, subject to its unique constraint
        and both foreign keys. */
    method SubscribeUser(userId: nat, feedId: nat) returns (r: Outcome<Exception>)
      requires Valid()
      modifies this
      ensures Valid()
      ensures users == old(users) && feeds == old(feeds) && lastItems == old(lastItems)
      ensures nextUserId == old(nextUserId) && nextFeedId == old(nextFeedId)
      ensures Subscription(userId, feedId) in old(subscriptions) ==>
                r == Fail(Integrity(UniqueSubscription))
      ensures Subscription(userId, feedId) !in old(subscriptions) && userId !in UserIds() ==>
                r == Fail(Integrity(SubscriptionUserKey))
      ensures Subscription(userId, feedId) !in old(subscriptions) && userId in UserIds() && feedId !in FeedIds() ==>
                r == Fail(Integrity(SubscriptionFeedKey))
      ensures r.Fail? ==> subscriptions == old(subscriptions)
      ensures r == Pass <==>
                Subscription(userId, feedId) !in old(subscriptions) && userId in UserIds() && feedId in FeedIds()
      ensures r == Pass ==> subscriptions == old(subscriptions) + {Subscription(userId, feedId)}
    {
      if Subscription(userId, feedId) in subscriptions {
        return Fail(Integrity(UniqueSubscription));
      }
      if userId !in UserIds() {
        return Fail(Integrity(SubscriptionUserKey));
      }
      if feedId !in FeedIds() {
        return Fail(Integrity(SubscriptionFeedKey));
      }
      subscriptions := subscriptions + {Subscription(userId, feedId)};
      r := Pass;
    }

    /** `subscribe_user_by_url`: finds or creates the feed, then subscribes.
        `feedId` is the id of the feed with that url afterwards. */
    method SubscribeUserByUrl(userId: nat, url: string) returns (r: Outcome<Exception>, ghost feedId: nat)
      requires Valid()
      modifies this
      ensures Valid()
      ensures users == old(users) && lastItems == old(lastItems) && nextUserId == old(nextUserId)
      ensures FeedRow(feedId, url) in feeds && FindFeedByUrl(url) == Some(feedId)
      ensures old(FindFeedByUrl(url)).Some? ==>
                feedId == old(FindFeedByUrl(url)).value && feeds == old(feeds) && nextFeedId == old(nextFeedId)
      ensures old(FindFeedByUrl(url)).None? ==>
                feedId == old(nextFeedId) && feeds == old(feeds) + [FeedRow(feedId, url)] &&
                nextFeedId == old(nextFeedId) + 1
      ensures Subscription(userId, feedId) in old(subscriptions) ==>
                r == Fail(Displayable("Already subscribed"))
      ensures Subscription(userId, feedId) !in old(subscriptions) && userId !in UserIds() ==>
                r == Fail(Integrity(SubscriptionUserKey))
      ensures r.Fail? ==> subscriptions == old(subscriptions)
      ensures r == Pass <==> Subscription(userId, feedId) !in old(subscriptions) && userId in UserIds()
      ensures r == Pass ==> subscriptions == old(subscriptions) + {Subscription(userId, feedId)}
    {
      var found := FindFeedByUrl(url);
      var id: nat;
      if found.None? {
        var added := AddFeed(url);
        id := added.value;
      } else {
        id := found.value;
        FeedIdOfUnique(feeds, url, id);
      }
      feedId := id;
      if IsUserSubscribed(userId, id) {
        return Fail(Displayable("Already subscribed")), feedId;
      }
      r := SubscribeUser(userId, id);
    }

    /** `unsubscribe_user`: deletes the pair if present. */
    method UnsubscribeUser(userId: nat, feedId: nat)
      requires Valid()
      modifies this
      ensures Valid()
      ensures users == old(users) && feeds == old(feeds) && lastItems == old(lastItems)
      ensures nextUserId == old(nextUserId) && nextFeedId == old(nextFeedId)
      ensures subscriptions == old(subscriptions) - {Subscription(userId, feedId)}
    {
      subscriptions := subscriptions - {Subscription(userId, feedId)};
    }

    /** `get_feed_subscribers_count`. */
    function GetFeedSubscribersCount(feedId: nat): (r: nat)
      reads this
      ensures r == |set s | s in subscriptions && s.feedId == feedId|
      ensures r == 0 <==> forall s :: s in subscriptions ==> s.feedId != feedId
    {
      var those := set s | s in subscriptions && s.feedId == feedId;
      assert those == {} <==> forall s :: s in subscriptions ==> s.feedId != feedId by {
        forall s | s in subscriptions && s.feedId == feedId ensures s in those {
        }
      }
      |those|
    }

    /** `unsubscribe_user_by_url`: the feed must exist and the user must be
        subscribed to it; a feed left without subscribers is deleted. */
    method UnsubscribeUserByUrl(userId: nat, url: string) returns (r: Outcome<Exception>)
      requires Valid()
      modifies this
      ensures Valid()
      ensures users == old(users) && nextUserId == old(nextUserId) && nextFeedId == old(nextFeedId)
      ensures old(FindFeedByUrl(url)).None? ==>
                r == Fail(Displayable("Feed does not exist")) && unchanged(this)
      ensures old(FindFeedByUrl(url)).Some? &&
              Subscription(userId, old(FindFeedByUrl(url)).value) !in old(subscriptions) ==>
                r == Fail(Displayable("Not subscribed")) && unchanged(this)
      ensures old(FindFeedByUrl(url)).Some? &&
              Subscription(userId, old(FindFeedByUrl(url)).value) in old(subscriptions) ==>
                var id := old(FindFeedByUrl(url)).value;
                && r == Pass
                && subscriptions == old(subscriptions) - {Subscription(userId, id)}
                && ((forall s :: s in subscriptions ==> s.feedId != id) ==>
                      feeds == FeedsWithout(old(feeds), id) && lastItems == WithoutFeed(old(lastItems), id))
                && ((exists s :: s in subscriptions && s.feedId == id) ==>
                      feeds == old(feeds) && lastItems == old(lastItems))
    {
      var found := FindFeedByUrl(url);
      if found.None? {
        return Fail(Displayable("Feed does not exist"));
      }
      var id := found.value;
      if !IsUserSubscribed(userId, id) {
        return Fail(Displayable("Not subscribed"));
      }
      UnsubscribeUser(userId, id);
      if GetFeedSubscribersCount(id) == 0 {
        var _ := DeleteFeed(id);
      }
      r := Pass;
    }

    /** `find_feed_subscribers`: the telegram ids of exactly the users
        subscribed to the feed. */
    function FindFeedSubscribers(feedId: nat): (r: seq<int>)
      reads this
      ensures forall u :: u in users && Subscription(u.id, feedId) in subscriptions ==> u.telegramId in r
      ensures forall t :: t in r ==>
        exists u :: u in users && u.telegramId == t && Subscription(u.id, feedId) in subscriptions
      ensures Valid() ==> forall i, j :: 0 <= i < j < |r| ==> r[i] != r[j]
    {
      SubscribersDistinct(users, subscriptions, feedId);
      SubscribersOf(users, subscriptions, feedId)
    }

    /** `find_user_feeds`: the feeds the user is subscribed to. */
    function FindUserFeeds(userId: nat): (r: seq<FeedRow>)
      reads this
      ensures forall f :: f in r <==> f in feeds && Subscription(userId, f.id) in subscriptions
    {
      FeedsOfUser(feeds, subscriptions, userId)
    }

    // --- last items

    /** `find_feed_items`. */
    function FindFeedItems(feedId: nat): (r: seq<LastItemRow>)
      reads this
      ensures forall x :: x in r <==> x in lastItems && x.feedId == feedId
    {
      ItemsOf(lastItems, feedId)
    }

    /** `find_feed_items_urls`: the urls of the feed's stored rows, in order,
        and `[]` when it has none. */
    function FindFeedItemsUrls(feedId: nat): (r: seq<string>)
      reads this
      ensures |r| == |FindFeedItems(feedId)|
      ensures forall i :: 0 <= i < |r| ==> r[i] == FindFeedItems(feedId)[i].url
      ensures r == [] <==> forall x :: x in lastItems ==> x.feedId != feedId
    {
      var items := FindFeedItems(feedId);
      assert items != [] ==> items[0] in lastItems && items[0].feedId == feedId;
      if items == [] then [] else UrlsOf(items)
    }

    /** `update_feed_items`: turns every item into its `(feed_id, url, guid)`
        row, then deletes the feed's rows and inserts the new ones in one
        transaction. Rows for a feed that does not exist violate the foreign
        key, and nothing is committed. */
    method UpdateFeedItems(feedId: nat, items: seq<Rss.FeedItem>) returns (r: Outcome<Exception>)
      requires Valid()
      modifies this
      ensures Valid()
      ensures users == old(users) && feeds == old(feeds) && subscriptions == old(subscriptions)
      ensures nextUserId == old(nextUserId) && nextFeedId == old(nextFeedId)
      ensures feedId !in FeedIds() && items != [] ==>
                r == Fail(Integrity(LastItemFeedKey)) && lastItems == old(lastItems)
      ensures feedId in FeedIds() || items == [] ==>
                r == Pass && lastItems == Replace(old(lastItems), feedId, items)
      ensures r == Pass ==> FindFeedItems(feedId) == Project(feedId, items)
    {
      var rows: seq<LastItemRow> := [];
      for i := 0 to |items|
        invariant rows == Project(feedId, items[..i])
      {
        rows := rows + [LastItemRow(feedId, items[i].url, items[i].guid)];
      }
      assert items[..|items|] == items;
      if feedId !in FeedIds() && rows != [] {
        return Fail(Integrity(LastItemFeedKey));
      }
      lastItems := WithoutFeed(lastItems, feedId) + rows;
      ReplaceItems(old(lastItems), feedId, items, feedId);
      r := Pass;
    }
  }

  /** A subscription check agrees with both listings: the feed is among the
      user's feeds, and the user's chat among the feed's subscribers. */
  lemma SubscribedIffListed(db: Database, u: UserRow, f: FeedRow)
    requires u in db.users && f in db.feeds
    ensures db.IsUserSubscribed(u.id, f.id) <==> f in db.FindUserFeeds(u.id)
    ensures db.IsUserSubscribed(u.id, f.id) ==> u.telegramId in db.FindFeedSubscribers(f.id)
  {
  }

  // ---------------------------------------------------------------------------
  // Facts about the relations used by the database methods.

  function IdsOf(feeds: seq<FeedRow>): set<nat> { set f | f in feeds :: f.id }
  function UserIdsOf(users: seq<UserRow>): set<nat> { set u | u in users :: u.id }

  lemma UserAppended(users: seq<UserRow>, row: UserRow)
    requires DistinctUsers(users)
    requires forall u :: u in users ==> u.id != row.id && u.telegramId != row.telegramId
    ensures DistinctUsers(users + [row])
    ensures UserIdsOf(users + [row]) == UserIdsOf(users) + {row.id}
  {
    var s := users + [row];
    forall i, j | 0 <= i < j < |s| ensures s[i].id != s[j].id && s[i].telegramId != s[j].telegramId {
      if j == |users| { assert s[i] in users; }
    }
  }

  lemma FeedAppended(feeds: seq<FeedRow>, row: FeedRow)
    requires DistinctIds(feeds) && DistinctUrls(feeds)
    requires forall f :: f in feeds ==> f.id != row.id && f.url != row.url
    ensures DistinctIds(feeds + [row]) && DistinctUrls(feeds + [row])
    ensures IdsOf(feeds + [row]) == IdsOf(feeds) + {row.id}
  {
    var s := feeds + [row];
    forall i, j | 0 <= i < j < |s| ensures s[i].id != s[j].id && s[i].url != s[j].url {
      if j == |feeds| { assert s[i] in feeds; }
    }
  }

  lemma RemoveAtKeepsDistinct(feeds: seq<FeedRow>, k: nat)
    requires k < |feeds|
    requires DistinctIds(feeds) && DistinctUrls(feeds)
    ensures DistinctIds(feeds[..k] + feeds[k + 1..]) && DistinctUrls(feeds[..k] + feeds[k + 1..])
  {
    var s := feeds[..k] + feeds[k + 1..];
    assert forall i :: 0 <= i < |s| ==> s[i] == (if i < k then feeds[i] else feeds[i + 1]);
    forall i, j | 0 <= i < j < |s| ensures s[i].id != s[j].id && s[i].url != s[j].url {
      var i' := if i < k then i else i + 1;
      var j' := if j < k then j else j + 1;
      assert s[i] == feeds[i'] && s[j] == feeds[j'];
    }
  }

  lemma FeedsWithoutKeepsDistinct(feeds: seq<FeedRow>, feedId: nat)
    requires DistinctIds(feeds) && DistinctUrls(feeds)
    ensures DistinctIds(FeedsWithout(feeds, feedId)) && DistinctUrls(FeedsWithout(feeds, feedId))
  {
    if exists k :: 0 <= k < |feeds| && feeds[k].id == feedId {
      var k :| 0 <= k < |feeds| && feeds[k].id == feedId;
      RemoveAtIsFilter(feeds, k);
      RemoveAtKeepsDistinct(feeds, k);
    } else {
      NoMatchFilter(feeds, feedId);
    }
  }

  /** The foreign keys still hold once a feed without subscriptions and its
      last items are gone. */
  lemma DeletedFeedValid(feeds: seq<FeedRow>, subs: set<Subscription>, table: seq<LastItemRow>, feedId: nat)
    requires forall s :: s in subs ==> s.feedId in IdsOf(feeds) && s.feedId != feedId
    requires forall r :: r in table ==> r.feedId in IdsOf(feeds)
    ensures forall s :: s in subs ==> s.feedId in IdsOf(FeedsWithout(feeds, feedId))
    ensures forall r :: r in WithoutFeed(table, feedId) ==> r.feedId in IdsOf(FeedsWithout(feeds, feedId))
  {
    IdsOfWithout(feeds, feedId);
  }

  lemma IdsOfWithout(feeds: seq<FeedRow>, feedId: nat)
    ensures IdsOf(FeedsWithout(feeds, feedId)) == IdsOf(feeds) - {feedId}
  {
    var r := FeedsWithout(feeds, feedId);
    forall x | x in IdsOf(feeds) - {feedId} ensures x in IdsOf(r) {
      var f :| f in feeds && f.id == x;
      assert f in r;
    }
  }

  lemma {:induction false} UserIdOfAppended(users: seq<UserRow>, row: UserRow)
    requires forall u :: u in users ==> u.telegramId != row.telegramId
    ensures UserIdOf(users + [row], row.telegramId) == Some(row.id)
  {
    if users != [] {
      assert (users + [row])[1..] == users[1..] + [row];
      UserIdOfAppended(users[1..], row);
    }
  }

  lemma {:induction false} FeedIdOfAppended(feeds: seq<FeedRow>, row: FeedRow)
    requires forall f :: f in feeds ==> f.url != row.url
    ensures FeedIdOf(feeds + [row], row.url) == Some(row.id)
  {
    if feeds != [] {
      assert (feeds + [row])[1..] == feeds[1..] + [row];
      FeedIdOfAppended(feeds[1..], row);
    }
  }

  /** With unique urls, a url names one feed row. */
  lemma FeedIdOfUnique(feeds: seq<FeedRow>, url: string, id: nat)
    requires DistinctUrls(feeds)
    requires FeedIdOf(feeds, url) == Some(id)
    ensures forall f :: f in feeds && f.url == url ==> f.id == id
  {
    forall f | f in feeds && f.url == url ensures f.id == id {
      var i :| 0 <= i < |feeds| && feeds[i] == f;
      var j :| 0 <= j < |feeds| && feeds[j] == FeedRow(id, url);
      assert i == j;
    }
  }
}
