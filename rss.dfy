/** An RSS source: the feed url, the id the fetched articles are tagged with,
    and the mapping of loaded feed entries to items. Loading the feed is an
    outcome passed in. */
module Rss {
  import opened Wrappers
  import opened Models

  /** One entry of a loaded feed, with the fields the mapping reads and two
      it drops. */
  datatype FeedItem = FeedItem(title: string, summary: string, content: string,
                               categories: seq<string>, link: string, date: Time)

  datatype Rss = Rss(url: string, sourceId: int, name: string)
  {
    /** `Id()`: the id of the source it was made from. */
    function Id(): int
    {
      sourceId
    }
  }

  /** `NewRSS(source)`. */
  function NewRss(source: Source): (r: Rss)
    ensures r.url == source.feedUrl && r.Id() == source.id && r.name == source.name
  {
    Rss(source.feedUrl, source.id, source.name)
  }

  /** `createItem`: title, categories, link and date are copied; summary and
      content are dropped. */
  function CreateItem(fi: FeedItem): (it: Item)
    ensures it.title == fi.title && it.categories == fi.categories
    ensures it.link == fi.link && it.date == fi.date
  {
    Item(fi.title, fi.categories, fi.link, fi.date)
  }

  /** One item per feed entry, in feed order. */
  function ItemsOf(fis: seq<FeedItem>): (items: seq<Item>)
    ensures |items| == |fis|
    ensures forall k :: 0 <= k < |fis| ==> items[k] == CreateItem(fis[k])
  {
    if fis == [] then [] else ItemsOf(fis[..|fis| - 1]) + [CreateItem(fis[|fis| - 1])]
  }

  /** `Fetch`: a failed load returns no items and the load's error; a loaded
      feed is mapped entry by entry, so an empty feed gives an empty list. */
  method Fetch(r: Rss, feed: Result<seq<FeedItem>, Error>) returns (items: Result<seq<Item>, Error>)
    ensures feed.Failure? ==> items == Failure(feed.error)
    ensures feed.Success? ==> items == Success(ItemsOf(feed.value))
  {
    if feed.Failure? {
      return Failure(feed.error);
    }
    var out: seq<Item> := [];
    for i := 0 to |feed.value|
      invariant out == ItemsOf(feed.value[..i])
    {
      assert feed.value[..i + 1][..i] == feed.value[..i];
      out := out + [CreateItem(feed.value[i])];
    }
    assert feed.value[..|feed.value|] == feed.value;
    items := Success(out);
  }
}
