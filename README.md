# tg_rss_bot, modelled in Dafny

tg_rss_bot is a Telegram bot that watches RSS/Atom feeds for its users.
A user subscribes with `/add <url>` and unsubscribes with `/del <url>`.
A periodic update pass then fetches every stored feed and works out which
fetched items are new against the feed's stored "last items". It sends each
new item as a formatted message to every subscriber, pausing one second after
every 30 messages, and replaces the stored last items with everything fetched.

The project models the core of that bot:

- `wrappers.dfy`: `Option`, `Result` and `Outcome`. These stand for
  Python's `None`-or-value returns and raised exceptions.
- `exceptions.dfy`: the exceptions the core raises:
  - the user-facing `DisplayableException`;
  - integrity errors for each schema constraint;
  - the data error for an integer outside its `INTEGER` column's range;
  - `ValueError`;
  - any other exception.
- `rss.dfy` (module `Rss`): a feed item built from a parsed entry, with its
  defaults. Also the feed built from a parsed document, and the reader.
- `database.dfy` (module `Db`): the PostgreSQL store as an in-memory class.
  - It holds the four relations `users`, `feeds`, `subscriptions` and
    `feeds_last_items`, and the two `SERIAL` sequences.
  - The initial schema's constraints are its invariant `Valid()`.
  - Every public method of `Database` has one member.
- `telegram.dfy` (module `Telegram`):
  - the command argument checks, including `str.split()` and the URL
    validity test;
  - the message format;
  - the throttled `Notifier`;
  - the error replies of `ExceptionHandlerMiddleware`;
  - the token check of `CommandProcessor`;
  - the `/add` and `/del` handlers;
  - the user registration of `UserAuthMiddleware`.
- `update_manager.dfy` (module `Updates`):
  - the item difference, as a loop method proved against a function;
  - its properties;
  - a functional specification of a whole update pass (`Cycle`);
  - `UpdateManager.Update`, proved to perform exactly that pass.

Two behaviours of the code that a reader might not expect, both modelled as
written:

- **The url fallback is dead.** The difference tests an item's url only
  when no stored row has a guid, and that test can never decide the outcome.
  Such an item's guid cannot be among the (empty) stored guids, so it is
  reported anyway. The difference is therefore exactly "fetched items whose
  guid is not a stored non-empty guid" (`Updates.UrlsNeverConsulted`). A feed
  whose entries have no guid is reported in full on every pass: after a pass
  its stored rows are its fetched items (`Updates.CycleBaseline`), none of
  which has a guid, and with no stored guid the whole fetched list is
  reported (`Updates.NoStoredGuidsMeansAllNew`).
  `Updates.StoredUrlWithoutGuidIsReported` works through a two-item example.
- **Deleting a feed does not cascade to subscriptions.** Only
  `feeds_last_items` cascades in the schema. Deleting a feed that still has
  subscriptions fails on the `subscriptions` foreign key
  (`Db.Database.DeleteFeed`). The bot only deletes a feed after counting zero
  subscribers, so that path never fails there.

The model departs from the code in one place. `update_manager.py:39` passes
the feed title as a third argument that `Notifier.send_updates` does not take,
so the call as written raises `TypeError`. The model performs the evidently
intended two-argument call instead.

## Model

| member | source | states |
|---|---|---|
| Rss.ItemOf | rss.py:7-18 | each text field is the entry's value or `""` when the key is missing; the date is `updated` when present, else `published`, and absent exactly when both are |
| Rss.NewFeed | rss.py:21-27 | the feed keeps the url, takes the document title or `""`, and has exactly one item per entry, item `i` built from entry `i` |
| Rss.RssReader.GetFeed | rss.py:36-38 | the feed is the one built from the parsed document of that url |
| Db.UserIdOf | database.py:28-35 | a found id belongs to a row with that telegram id; nothing is found iff no row has it |
| Db.FeedIdOf | database.py:44-51 | a found id belongs to a row with that url; nothing is found iff no row has it |
| Db.SubscribersOf | database.py:115-121 | every subscribed user's telegram id is listed, only those are, and there are no more entries than users |
| Db.SubscribersDistinct | database.py:115-121 | with unique telegram ids, no chat is listed twice, so no chat gets an item twice in one pass |
| Db.FeedsOfUser | database.py:129-134 | exactly the feed rows the user is subscribed to |
| Db.FeedsWithout | database.py:102-106 | exactly the feed rows with another id remain |
| Db.ItemsOf | database.py:136-140 | exactly the stored rows of that feed |
| Db.WithoutFeed | migrations/0000.initial_schema.py:23-28 | exactly the rows of other feeds remain (the cascade of a feed delete) |
| Db.ItemsOfAppend | database.py:136-140 | a feed's rows in a concatenated table are its rows in each part, in order |
| Db.ItemsOfWithoutFeed | database.py:155 | after deleting a feed's rows that feed has none and every other feed keeps its own |
| Db.ItemsOfProject | database.py:153-157 | inserted rows belong only to the feed they were written for |
| Db.ReplaceItems | database.py:150-158 | after replacement the feed's rows are the fetched items' `(feed_id, url, guid)` rows in order, and every other feed keeps its rows |
| Db.RemoveAtIsFilter | database.py:105 | with unique ids, removing the row at the position of an id is deleting by that id |
| Db.ConsistentDraw | migrations/0000.initial_schema.py:6-13 | drawing serial values without inserting keeps every constraint |
| Db.ConsistentAddUser | database.py:21-26 | inserting a fresh telegram id under the next serial id keeps every constraint |
| Db.ConsistentAddFeed | database.py:37-42 | inserting a fresh url under the next serial id keeps every constraint |
| Db.ConsistentDeleteFeed | database.py:102-106 | deleting a feed nobody subscribes to, with its last items, keeps every constraint |
| Db.FeedsWithoutKeepsDistinct | migrations/0000.initial_schema.py:10-15 | deleting a feed keeps ids and urls unique |
| Db.DeletedFeedValid | migrations/0000.initial_schema.py:16-28 | after the delete, every subscription and every last-item row still references an existing feed |
| Db.IdsOfWithout | database.py:105 | the ids left are the old ids minus the deleted one |
| Db.UserIdOfAppended | database.py:21-35 | a user just inserted is found by its telegram id under its new id |
| Db.FeedIdOfAppended | database.py:37-51 | a feed just inserted is found by its url under its new id |
| Db.FeedIdOfUnique | migrations/0000.initial_schema.py:13 | with unique urls, every row with the url has the id the lookup returns |
| Db.Database.constructor | migrations/0000.initial_schema.py:3-30 | a freshly migrated database is empty, valid, and both sequences start at 1 |
| Db.Database.FindUser | database.py:28-35 | returns the id of the user row with that telegram id, and nothing iff there is none |
| Db.Database.AddUser | database.py:21-26 | a telegram id outside the 32-bit `INTEGER` range fails with the out-of-range data error and changes nothing; otherwise a new telegram id is inserted under the next serial id, which is returned and then found, an existing one fails with the unique-constraint error and changes no row, and the sequence advances either way; nothing else changes and the constraints hold |
| Db.Database.FindFeedByUrl | database.py:44-51 | returns the id of the feed row with that url, and nothing iff there is none |
| Db.Database.AddFeed | database.py:37-42 | a new url is inserted under the next serial id, which is returned and then found; an existing url fails with the unique-constraint error; the sequence advances either way; nothing else changes |
| Db.Database.DeleteFeed | database.py:102-106 | with subscriptions left it fails on their foreign key and changes nothing; otherwise the feed row and its last items are gone and the rest stays |
| Db.Database.FindFeeds | database.py:123-127 | every feed row and only those |
| Db.Database.IsUserSubscribed | database.py:93-100 | true iff some subscription row has that user id and that feed id |
| Db.SubscribedIffListed | database.py:93-100 | a subscription check agrees with the user's feed list both ways, and a subscribed user's chat is among the feed's subscribers |
| Db.Database.SubscribeUser | database.py:65-69 | inserts the pair iff it is new and both keys exist; otherwise fails with the unique, user-key or feed-key error, checked in that order, and changes nothing |
| Db.Database.SubscribeUserByUrl | database.py:53-63 | finds the feed or creates it under the next id; an existing pair fails with "Already subscribed"; a missing user fails on the key; otherwise the pair is added |
| Db.Database.UnsubscribeUser | database.py:87-91 | removes exactly that pair, if present |
| Db.Database.GetFeedSubscribersCount | database.py:108-113 | the count is the number of subscriptions naming the feed, so it is zero iff none does |
| Db.Database.UnsubscribeUserByUrl | database.py:71-85 | an unknown url fails with "Feed does not exist" and a missing pair with "Not subscribed", both changing nothing; otherwise the pair is removed, and the feed with its last items is deleted iff no subscriber remains |
| Db.Database.FindFeedSubscribers | database.py:115-121 | exactly the telegram ids of the feed's subscribers, each listed once in a valid store |
| Db.Database.FindUserFeeds | database.py:129-134 | exactly the feeds the user is subscribed to |
| Db.Database.FindFeedItems | database.py:136-140 | exactly the stored rows of that feed |
| Db.Database.FindFeedItemsUrls | database.py:142-148 | the urls of the feed's rows position by position, and empty iff the feed has no rows |
| Db.Database.UpdateFeedItems | database.py:150-158 | the feed's rows become the items' `(feed_id, url, guid)` rows in order and every other table is untouched; rows for a feed that does not exist fail on the foreign key and nothing is committed |
| Telegram.Words | telegram.py:45 | every piece of `str.split()` is a non-empty run without whitespace, and a text starting with a non-space starts its first piece |
| Telegram.WordsConcat | telegram.py:45 | splitting at a whitespace character splits each side independently |
| Telegram.WordsConcatWord | telegram.py:45 | the same split when the left side starts with a word character |
| Telegram.WordsOfToken | telegram.py:45 | a run without whitespace splits to itself |
| Telegram.CommandWords | telegram.py:45-49 | `"<command> <url> ..."` splits into the command, the url, then the split of the rest |
| Telegram.SchemeForm | telegram.py:85 | a url starts with `<scheme>://` iff that is its scheme (the text before the first `:`) and `://` follows it |
| Telegram.IsUrlValid | telegram.py:79-87 | a url is valid iff the URL library accepts it, its scheme is `http` or `https`, and `://` follows the scheme |
| Telegram.FeedUrlArgument | telegram.py:44-51 | fewer than two words iff "Feed URL should be specified"; an invalid second word iff "Invalid feed URL"; success gives the second word, which is a valid url |
| Telegram.ArgumentOfCommand | telegram.py:44-51 | a command followed by a url token yields that url when it is valid, whatever follows, and "Invalid feed URL" otherwise |
| Telegram.BareCommand | telegram.py:46-47 | a command alone fails with "Feed URL should be specified" |
| Telegram.FormatMessage | telegram.py:118-123 | the message is the bold title link to the item url, a blank line, then the description: the opening markup, the url, `">`, the title, `</a></strong>` with the blank line, and the description each sit at their own position, and nothing else is in it |
| Telegram.DeliveriesLength | telegram.py:102-104 | one message per chat and update |
| Telegram.DeliveriesAt | telegram.py:102-104 | the message for chat `i` and update `j` sits at position `i * |updates| + j` |
| Telegram.DeliveriesShape | telegram.py:100-104 | the messages go chat by chat and, within a chat, update by update, each the formatted update for that chat |
| Telegram.AfterSendsCounts | telegram.py:105-109 | from a counter below 30, each message sent is either still counted or in a full batch of 30 that ended in a pause, and the counter stays below 30 |
| Telegram.AfterSendsClosedForm | telegram.py:105-109 | from a counter below 30, `n` sends leave the counter at `(c + n) % 30` after `(c + n) / 30` pauses |
| Telegram.ThrottleCompose | telegram.py:95-109 | two calls throttle like one call with all their messages, because the counter carries over |
| Telegram.Notifier.constructor | telegram.py:93-98 | a new notifier has counter 0 and has sent nothing |
| Telegram.Notifier.SendUpdates | telegram.py:100-109 | appends every update for every chat, in that order, and afterwards the counter is the messages sent since the last pause and the pauses are one per full batch of 30 |
| Telegram.Notifier.SendToChat | telegram.py:103-109 | appends every update for one chat, in order, and the counter and pauses stay those of all messages sent so far |
| Telegram.CountersOfValid | telegram.py:93-109 | a notifier has paused once per full 30 messages it has sent, and its counter holds the messages sent since |
| Telegram.PostProcess | telegram.py:162-169 | no exception, no reply; a displayable one replies "Error: " and its message; any other replies the generic apology |
| Telegram.RepliesSeparate | telegram.py:162-169 | a displayable message is recoverable from its reply, different messages give different replies, and every other exception gets one reply that differs from all displayable ones |
| Telegram.CommandProcessor.Create | telegram.py:16-22 | a missing or empty token fails with `ValueError("Token should not be empty")`, and any other token builds a processor on that database |
| Telegram.CommandProcessor.AddFeed | telegram.py:44-55 | an argument error is replied and the store is untouched; otherwise a known url keeps the feed table and an unknown one is appended under the next feed id; users, last items and the user sequence stay; the user is subscribed with "Successfully subscribed to feed." iff the pair was new and the user exists, else "Already subscribed" or the user-key error, with subscriptions unchanged |
| Telegram.CommandProcessor.DeleteFeed | telegram.py:66-77 | an argument error is replied and the store is untouched; an unknown feed or missing pair fails and changes nothing; otherwise the pair is removed, the reply is "Unsubscribed.", and the feed with its last items is deleted iff no subscriber remains; users and both sequences stay |
| Telegram.UserAuthMiddleware.FindOrRegisterUser | telegram.py:141-147 | a known sender's id is returned and nothing changes; an unknown sender within the `INTEGER` range is appended under the next `users` serial value, which is returned, and that sequence advances, as the only changes; the feeds' sequence never moves; an unknown one outside it fails with the out-of-range error and changes nothing |
| Updates.StoredGuids | update_manager.py:52 | every non-empty stored guid is listed, and only those |
| Updates.CalculateDifference | update_manager.py:42-65 | the loop computes the difference: all fetched items when nothing is stored, otherwise those passing the per-item test |
| Updates.SelectIsUnseenGuids | update_manager.py:56-61 | the per-item test keeps exactly the items whose guid is not stored |
| Updates.UrlsNeverConsulted | update_manager.py:47-61 | the difference is exactly the fetched items whose guid is not a non-empty stored guid, in order |
| Updates.DifferenceMembership | update_manager.py:42-65 | an item is reported iff it was fetched and its guid is not a stored non-empty guid |
| Updates.GuidPrecedence | update_manager.py:57-61 | an item whose guid is stored is not reported even at a new url, and one whose guid no row has is reported even at a stored url |
| Updates.NoStoredGuidsMeansAllNew | update_manager.py:52-59 | when no stored row has a guid, every fetched item is reported, in order |
| Updates.EmptyStoreMeansAllNew | update_manager.py:47-49 | nothing stored: the fetched list itself |
| Updates.DifferenceAppend | update_manager.py:56-61 | each fetched item is judged on its own: the difference of a concatenation is the concatenation of the differences |
| Updates.DifferenceMultiplicity | update_manager.py:56-61 | duplicates are kept: a reported item occurs as often as it was fetched, and one without a guid always does |
| Updates.DifferenceIsSubsequence | update_manager.py:56-61 | the difference is the fetched list at strictly increasing positions |
| Updates.UnseenPositions | update_manager.py:56-61 | the items with unstored guids sit at strictly increasing positions of the input |
| Updates.DifferenceIdempotent | update_manager.py:33-40 | once the update stores a feed's items, the same items give an empty difference, provided every item has a guid |
| Updates.StoredUrlWithoutGuidIsReported | update_manager.py:52-61 | with a stored guid-less row for item 1, fetching items 1 and 2 without guids reports both |
| Updates.CycleLeavesOthers | update_manager.py:27-40 | a feed's rows are touched only by its own turn |
| Updates.CycleAppend | update_manager.py:27 | running the feeds of two lists in turn is running them as one list |
| Updates.CycleBaseline | update_manager.py:27-40 | after the pass each feed's rows are all its fetched items when its difference against the starting rows was non-empty, and its old rows otherwise |
| Updates.CycleNotifications | update_manager.py:27-40 | the pass sends, feed by feed, exactly each feed's difference against the starting rows to that feed's subscribers, and nothing for an empty difference |
| Updates.CycleShifts | update_manager.py:39 | a pass appends the same messages whatever the notifier had already sent |
| Updates.FeedStepShifts | update_manager.py:39 | one feed's turn appends the same messages whatever the notifier had already sent |
| Updates.UpdateManager.constructor | update_manager.py:11-19 | the manager holds the given store, notifier and reader |
| Updates.UpdateManager.ProcessFeed | update_manager.py:28-40 | one feed's turn: fetch, diff, and only for a non-empty diff send it to the subscribers and replace the stored rows; users, feeds and subscriptions stay the same |
| Updates.UpdateManager.Update | update_manager.py:21-40 | the pass over the feeds in table order: the stored rows and the sent messages are exactly those of `Cycle`; users, feeds and subscriptions stay the same; the notifier stays valid, so with `Telegram.CountersOfValid` its counters match everything sent |

## Left out

- Logging (`log.debug`, `log.info`) everywhere: it has no effect on state.
- The PostgreSQL connection, `commit`, and the yoyo migration runner
  (`Database.__init__`, `__migrate`). The database starts as the empty,
  migrated schema.
- The aborted-transaction state psycopg2 enters after a failed statement
  with no rollback. Each modelled statement fails or succeeds on its own.
- Db.Database.FindFeedSubscribers: the query result's order is taken to be
  table order. PostgreSQL does not fix this order without `ORDER BY`.
- Db.Database.FindUserFeeds: the same table-order assumption.
- Db.Database.FindFeeds: the same table-order assumption for `SELECT * FROM
  feeds`. The update pass (`Updates.UpdateManager.Update`) visits the feeds in
  that order, which fixes the order of the sent messages and where the pauses
  fall.
- Db.Database.FindFeedItems: the same table-order assumption for a feed's
  last items. `Db.ReplaceItems` and `Db.Database.UpdateFeedItems` state the
  stored rows in insertion order under it.
- Db.Database.AddUser, Db.Database.AddFeed: they do not model running out
  of the 32-bit `SERIAL` sequences after 2^31 - 1 values. Ids are unbounded
  naturals.
- Db.Database.UpdateFeedItems: it does not model the overwrite of the
  caller's `new_items` list in place by the row triples. The caller never
  reads the list again. A `NULL` guid is never written, since items always
  carry a string guid.
- `Db.Database.FindFeeds`, `FindUserFeeds`, `FindFeedItems`: these return
  typed rows instead of dictionaries (`__dictrow_to_dict_list`).
- `CommandProcessor.run`, `__list_feeds` and `__command_help`: handler
  registration, polling and fixed help or list replies are outside the core.
- The middleware wiring of the bot library (`pre_process` storing the user
  id, `setup_middleware`). `FindOrRegisterUser` and `PostProcess` are the
  decisions those hooks make.
- `validators.url`: a foreign predicate, taken as the parameter `accepts`.
- `feedparser.parse`: it fetches from the network. It is the reader's
  function `parse` from a url to a parsed document.
- The conversion of parsed times to local `datetime` (`mktime`,
  `fromtimestamp`). A date is kept as the parsed time value.
- Rss.ItemOf: an entry's `updated` or `published` key and its parsed time
  are one field. An entry whose date key is present but could not be parsed
  makes `mktime` raise in the source. The model has no such entry.
- The chat transport (`bot.send_message`, `reply_to`). Sent messages are
  the notifier's `outbox`, and replies are returned values.
- `time.sleep(1)`: counted as the notifier's `pauses`.
- Updates.UpdateManager.Update: it does not model exceptions from fetching
  or sending. Those abort the pass in the source. The call with a stray
  third argument at `update_manager.py:39` is modelled as the intended
  two-argument call.
- The entry point scripts `bot.py` and `update.py` (environment variables,
  process start-up) are not part of this model.
