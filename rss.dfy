/** Feed items and feeds as built from a parsed RSS/Atom document. */
module Rss {
  import opened Wrappers

  /** The time a feed gives for an entry, as the parser's parsed time value.
      The conversion of that value to a local `datetime` is not modelled. */
  datatype Timestamp = Timestamp(seconds: int)

  /** One parsed entry: each field is `None` when the entry lacks that key.
      `updated` and `published` hold the parsed time of the key of that name. */
  datatype Entry = Entry(
    link: Option<string>,
    title: Option<string>,
    summary: Option<string>,
    id: Option<string>,
    updated: Option<Timestamp>,
    published: Option<Timestamp>)

  /** A parsed document: the feed-level title (if any) and its entries in
      document order. */
  datatype Document = Document(title: Option<string>, entries: seq<Entry>)

  datatype FeedItem = FeedItem(
    url: string,
    title: string,
    description: string,
    guid: string,
    date: Option<Timestamp>)

  datatype Feed = Feed(url: string, title: string, items: seq<FeedItem>)

  /** `FeedItem(entry)`: missing text fields default to the empty string, and
      the date is taken from `updated` before `published`. */
  function ItemOf(e: Entry): (item: FeedItem)
    ensures item.url == (if e.link.Some? then e.link.value else "")
    ensures item.title == (if e.title.Some? then e.title.value else "")
    ensures item.description == (if e.summary.Some? then e.summary.value else "")
    ensures item.guid == (if e.id.Some? then e.id.value else "")
    ensures e.updated.Some? ==> item.date == e.updated
    ensures e.updated.None? && e.published.Some? ==> item.date == e.published
    ensures item.date.None? <==> e.updated.None? && e.published.None?
  {
    FeedItem(
      e.link.GetOr(""),
      e.title.GetOr(""),
      e.summary.GetOr(""),
      e.id.GetOr(""),
      if e.updated.Some? then e.updated else e.published)
  }

  /** The feed that `Feed(url, doc)` builds: one item per entry, in entry order. */
  function FeedOf(url: string, doc: Document): Feed {
    Feed(url, doc.title.GetOr(""),
         seq(|doc.entries|, i requires 0 <= i < |doc.entries| => ItemOf(doc.entries[i])))
  }

  /** `Feed.__init__`: appends one item per entry. */
  method NewFeed(url: string, doc: Document) returns (feed: Feed)
    ensures feed.url == url
    ensures feed.title == (if doc.title.Some? then doc.title.value else "")
    ensures |feed.items| == |doc.entries|
    ensures forall i :: 0 <= i < |doc.entries| ==> feed.items[i] == ItemOf(doc.entries[i])
    ensures feed == FeedOf(url, doc)
  {
    var items: seq<FeedItem> := [];
    for i := 0 to |doc.entries|
      invariant |items| == i
      invariant forall k :: 0 <= k < i ==> items[k] == ItemOf(doc.entries[k])
    {
      items := items + [ItemOf(doc.entries[i])];
    }
    feed := Feed(url, doc.title.GetOr(""), items);
  }

  /** The reader; `parse` stands for fetching and parsing a URL, which is
      outside the model. */
  class RssReader {
    const parse: string -> Document

    constructor (parse: string -> Document)
      ensures this.parse == parse
    {
      this.parse := parse;
    }

    method GetFeed(url: string) returns (feed: Feed)
      ensures feed == FeedOf(url, parse(url))
    {
      feed := NewFeed(url, parse(url));
    }
  }
}
