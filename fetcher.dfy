/** The fetch step: load each source's feed, map its items to articles tagged
    with the source id and add them to the articles table one by one. The
    per-source goroutines of `Fetch` run here one after the other, in an
    order the caller chooses; each touches the table only through `Add`. */
module Fetcher {
  import opened Wrappers
  import opened Models
  import opened Articles
  import Rss

  /** The two sources `Fetch` always processes. */
  const HardcodedSources: seq<Source> := [
    Source(1, "HABR", "https://habr.com/ru/rss/articles/?fl=ru", 0, 0),
    Source(2, "VC RU", "https://vc.ru/rss/all", 0, 0)
  ]

  /** What the outside world does to one source: the outcome of loading its
      feed, and the error, if any, of each `Add` in turn (missing entries
      succeed). */
  datatype SourceOutcome = SourceOutcome(feed: Result<seq<Rss.FeedItem>, Error>, addErrs: seq<Option<Error>>)

  function ErrAt(errs: seq<Option<Error>>, i: nat): Option<Error>
  {
    if i < |errs| then errs[i] else None
  }

  /** The article `processItems` builds from an item. The id is left zero. */
  function ToArticle(sourceId: int, item: Item): (a: Article)
    ensures a.sourceId == sourceId && a.title == item.title && a.link == item.link
    ensures a.categories == item.categories && a.publishedAt == item.date && a.id == 0
  {
    Article(0, sourceId, item.title, item.link, item.categories, item.date)
  }

  function ToArticles(sourceId: int, items: seq<Item>): (r: seq<Article>)
    ensures |r| == |items|
    ensures forall k :: 0 <= k < |items| ==> r[k] == ToArticle(sourceId, items[k])
  {
    seq(|items|, k requires 0 <= k < |items| => ToArticle(sourceId, items[k]))
  }

  /** The index of the first failing `Add` among `n` calls, or `n`. */
  function FirstFailure(errs: seq<Option<Error>>, n: nat): (k: nat)
    ensures k <= n
    ensures forall i :: 0 <= i < k ==> ErrAt(errs, i).None?
    ensures k < n ==> ErrAt(errs, k).Some?
    decreases n
  {
    if n == 0 then 0
    else
      var k := FirstFailure(errs, n - 1);
      if k < n - 1 then k else if ErrAt(errs, n - 1).Some? then n - 1 else n
  }

  /** The table after `processItems`: the articles before the first failing
      `Add` were added; the failing one changed nothing. */
  function Processed(t: ArticleTable, sourceId: int, items: seq<Item>, errs: seq<Option<Error>>): (r: ArticleTable)
    ensures Links(r.rows) == Links(t.rows) + (set k | 0 <= k < FirstFailure(errs, |items|) :: items[k].link)
    ensures |t.rows| <= |r.rows| && r.rows[..|t.rows|] == t.rows
    ensures WellFormed(t) ==> WellFormed(r)
  {
    var n := FirstFailure(errs, |items|);
    var articles := ToArticles(sourceId, items[..n]);
    assert LinksOf(articles) == (set k | 0 <= k < n :: items[k].link) by {
      forall l | l in LinksOf(articles) ensures l in (set k | 0 <= k < n :: items[k].link) {
        var k :| 0 <= k < |articles| && articles[k].link == l;
        assert items[k].link == l;
      }
      forall l | l in (set k | 0 <= k < n :: items[k].link) ensures l in LinksOf(articles) {
        var k :| 0 <= k < n && items[k].link == l;
        assert articles[k].link == l;
      }
    }
    AddAll(t, articles)
  }

  /** The error `processItems` returns: that of the first failing `Add`. */
  function ProcessError(items: seq<Item>, errs: seq<Option<Error>>): (e: Option<Error>)
    ensures e.None? <==> FirstFailure(errs, |items|) == |items|
  {
    var k := FirstFailure(errs, |items|);
    if k < |items| then ErrAt(errs, k) else None
  }

  /** The articles one source contributes: none when its feed fails to load. */
  function Contributed(source: Source, o: SourceOutcome): seq<Article>
  {
    match o.feed
    case Failure(_) => []
    case Success(fis) =>
      var items := Rss.ItemsOf(fis);
      ToArticles(Rss.NewRss(source).Id(), items[..FirstFailure(o.addErrs, |items|)])
  }

  /** The table after `fetchSource`. */
  function SourceFetched(t: ArticleTable, source: Source, o: SourceOutcome): ArticleTable
  {
    AddAll(t, Contributed(source, o))
  }

  /** The table after `fetchSource` ran for each source in turn. */
  function AllFetched(t: ArticleTable, sources: seq<Source>, outcomeOf: Source -> SourceOutcome): (r: ArticleTable)
    ensures |t.rows| <= |r.rows| && r.rows[..|t.rows|] == t.rows
    ensures t.nextId <= r.nextId
    ensures WellFormed(t) ==> WellFormed(r)
    decreases |sources|
  {
    if sources == [] then t
    else AllFetched(SourceFetched(t, sources[0], outcomeOf(sources[0])), sources[1..], outcomeOf)
  }

  /** `order` lists each of the indices below `n` exactly once. */
  predicate IsOrder(order: seq<nat>, n: nat)
  {
    && |order| == n
    && (forall i :: 0 <= i < n ==> order[i] < n)
    && (forall i, j :: 0 <= i < j < n ==> order[i] != order[j])
  }

  function Reorder(sources: seq<Source>, order: seq<nat>): (r: seq<Source>)
    requires forall i :: 0 <= i < |order| ==> order[i] < |sources|
    ensures |r| == |order| && forall i :: 0 <= i < |order| ==> r[i] == sources[order[i]]
  {
    seq(|order|, i requires 0 <= i < |order| => sources[order[i]])
  }

  /** The goroutines of `Fetch` run the two hard-coded sources, ids 1 and 2,
      each exactly once, in one order or the other. */
  lemma FetchRunsBothSources(order: seq<nat>)
    requires IsOrder(order, |HardcodedSources|)
    ensures Reorder(HardcodedSources, order) == HardcodedSources
            || Reorder(HardcodedSources, order) == [HardcodedSources[1], HardcodedSources[0]]
    ensures forall s :: s in Reorder(HardcodedSources, order) ==> s.id == 1 || s.id == 2
  {
    var h0, h1 := HardcodedSources[0], HardcodedSources[1];
    assert order[0] < 2 && order[1] < 2 && order[0] != order[1];
    var r := Reorder(HardcodedSources, order);
    assert r[0] == HardcodedSources[order[0]] && r[1] == HardcodedSources[order[1]];
    assert HardcodedSources == [h0, h1];
    if order[0] == 0 {
      assert r == [h0, h1];
    } else {
      assert r == [h1, h0];
    }
    assert h0.id == 1 && h1.id == 2;
  }

  class Fetcher {
    const articleRepo: ArticleRepository

    constructor (repo: ArticleRepository)
      ensures articleRepo == repo
    {
      articleRepo := repo;
    }

    /** `processItems`: add the items' articles in list order and stop at the
        first failing `Add`, returning its error; earlier inserts remain. An
        empty list makes no call and returns nil. */
    method ProcessItems(source: Rss.Rss, items: seq<Item>, errs: seq<Option<Error>>) returns (err: Option<Error>)
      requires articleRepo.Valid()
      modifies articleRepo
      ensures articleRepo.Valid()
      ensures articleRepo.Table() == Processed(old(articleRepo.Table()), source.Id(), items, errs)
      ensures err == ProcessError(items, errs)
    {
      ghost var t0 := articleRepo.Table();
      var i := 0;
      while i < |items|
        invariant 0 <= i <= |items|
        invariant articleRepo.Valid()
        invariant ProcessFrom(articleRepo.Table(), source.Id(), items, errs, i) == ProcessFrom(t0, source.Id(), items, errs, 0)
      {
        var e := articleRepo.Add(ToArticle(source.Id(), items[i]), ErrAt(errs, i));
        if e.Some? {
          ProcessFromIsProcessed(t0, source.Id(), items, errs);
          return e;
        }
        i := i + 1;
      }
      ProcessFromIsProcessed(t0, source.Id(), items, errs);
      err := None;
    }

    /** `fetchSource`: load the feed; on failure nothing is added; otherwise
        process its items. Errors are only logged. */
    method FetchSource(source: Source, o: SourceOutcome)
      requires articleRepo.Valid()
      modifies articleRepo
      ensures articleRepo.Valid()
      ensures articleRepo.Table() == SourceFetched(old(articleRepo.Table()), source, o)
    {
      var rssSource := Rss.NewRss(source);
      var items := Rss.Fetch(rssSource, o.feed);
      if items.Failure? {
        return;
      }
      var _ := ProcessItems(rssSource, items.value, o.addErrs);
    }

    /** `Fetch`: run `fetchSource` for each hard-coded source, in `order`,
        and return nil whatever happened. */
    method Fetch(outcomeOf: Source -> SourceOutcome, order: seq<nat>) returns (err: Option<Error>)
      requires IsOrder(order, |HardcodedSources|)
      requires articleRepo.Valid()
      modifies articleRepo
      ensures articleRepo.Valid()
      ensures articleRepo.Table() == AllFetched(old(articleRepo.Table()), Reorder(HardcodedSources, order), outcomeOf)
      ensures err == None
    {
      ghost var t0 := articleRepo.Table();
      var sources := Reorder(HardcodedSources, order);
      var k := 0;
      while k < |sources|
        invariant 0 <= k <= |sources|
        invariant articleRepo.Valid()
        invariant AllFetched(t0, sources, outcomeOf) == AllFetched(articleRepo.Table(), sources[k..], outcomeOf)
      {
        assert sources[k..][1..] == sources[k + 1..];
        FetchSource(sources[k], outcomeOf(sources[k]));
        k := k + 1;
      }
      err := None;
    }
  }

  /** The table and the error of `processItems` from item `i` on, read the
      way the loop runs. */
  datatype Processing = Processing(table: ArticleTable, err: Option<Error>)

  function ProcessFrom(t: ArticleTable, sourceId: int, items: seq<Item>, errs: seq<Option<Error>>, i: nat): Processing
    decreases |items| - i
  {
    if i >= |items| then Processing(t, None)
    else if ErrAt(errs, i).Some? then Processing(t, ErrAt(errs, i))
    else ProcessFrom(InsertIfAbsent(t, ToArticle(sourceId, items[i])), sourceId, items, errs, i + 1)
  }

  lemma {:induction false} ProcessFromAddsUpToFailure(t: ArticleTable, sourceId: int, items: seq<Item>,
                                                      errs: seq<Option<Error>>, i: nat)
    requires i <= FirstFailure(errs, |items|)
    ensures ProcessFrom(t, sourceId, items, errs, i).table
            == AddAll(t, ToArticles(sourceId, items[i..FirstFailure(errs, |items|)]))
    decreases |items| - i
  {
    var k := FirstFailure(errs, |items|);
    if i < k {
      var t' := InsertIfAbsent(t, ToArticle(sourceId, items[i]));
      ProcessFromAddsUpToFailure(t', sourceId, items, errs, i + 1);
      AddAllFirst(t, sourceId, items, i, k);
    } else {
      assert ToArticles(sourceId, items[i..k]) == [];
    }
  }

  lemma AddAllFirst(t: ArticleTable, sourceId: int, items: seq<Item>, i: nat, k: nat)
    requires i < k <= |items|
    ensures AddAll(t, ToArticles(sourceId, items[i..k]))
            == AddAll(InsertIfAbsent(t, ToArticle(sourceId, items[i])), ToArticles(sourceId, items[i + 1..k]))
  {
    var all := ToArticles(sourceId, items[i..k]);
    assert all[0] == ToArticle(sourceId, items[i]);
    assert all[1..] == ToArticles(sourceId, items[i + 1..k]);
  }

  lemma {:induction false} ProcessFromFailsAtFirstFailure(t: ArticleTable, sourceId: int, items: seq<Item>,
                                                          errs: seq<Option<Error>>, i: nat)
    requires i <= FirstFailure(errs, |items|)
    ensures ProcessFrom(t, sourceId, items, errs, i).err == ProcessError(items, errs)
    decreases |items| - i
  {
    if i < FirstFailure(errs, |items|) {
      ProcessFromFailsAtFirstFailure(InsertIfAbsent(t, ToArticle(sourceId, items[i])), sourceId, items, errs, i + 1);
    }
  }

  lemma ProcessFromIsProcessed(t: ArticleTable, sourceId: int, items: seq<Item>, errs: seq<Option<Error>>)
    ensures ProcessFrom(t, sourceId, items, errs, 0) == Processing(Processed(t, sourceId, items, errs), ProcessError(items, errs))
  {
    ProcessFromAddsUpToFailure(t, sourceId, items, errs, 0);
    ProcessFromFailsAtFirstFailure(t, sourceId, items, errs, 0);
    assert items[0..FirstFailure(errs, |items|)] == items[..FirstFailure(errs, |items|)];
  }

  /** Every article added carries the source's id, and title, link,
      categories and publication time are the item's. */
  lemma ProcessedArticles(sourceId: int, items: seq<Item>, errs: seq<Option<Error>>, k: nat)
    requires k < FirstFailure(errs, |items|)
    ensures var a := ToArticles(sourceId, items[..FirstFailure(errs, |items|)])[k];
            a.sourceId == sourceId && a.title == items[k].title && a.link == items[k].link
            && a.categories == items[k].categories && a.publishedAt == items[k].date
  {
  }

  /** An empty item list adds nothing and returns nil. */
  lemma ProcessNothing(t: ArticleTable, sourceId: int, errs: seq<Option<Error>>)
    ensures Processed(t, sourceId, [], errs) == t && ProcessError([], errs) == None
  {
  }

  /** A source whose feed fails to load adds nothing. */
  lemma FailedSourceAddsNothing(t: ArticleTable, source: Source, o: SourceOutcome)
    requires o.feed.Failure?
    ensures SourceFetched(t, source, o) == t
  {
  }

  /** Processing the same items a second time, once the first pass added
      them all, leaves the table as it was after the first pass, whatever
      the second pass's `Add` calls report. */
  lemma {:induction false} ProcessTwice(t: ArticleTable, sourceId: int, items: seq<Item>,
                                        errs1: seq<Option<Error>>, errs2: seq<Option<Error>>)
    requires ProcessError(items, errs1) == None
    ensures Processed(Processed(t, sourceId, items, errs1), sourceId, items, errs2)
            == Processed(t, sourceId, items, errs1)
  {
    assert items[..|items|] == items;
    var once := Processed(t, sourceId, items, errs1);
    var all := ToArticles(sourceId, items);
    var part := ToArticles(sourceId, items[..FirstFailure(errs2, |items|)]);
    forall l | l in LinksOf(part) ensures l in Links(once.rows) {
      var i :| 0 <= i < |part| && part[i].link == l;
      assert all[i].link == l;
      assert l in LinksOf(all);
    }
    AddAllPresent(once, part);
  }

  /** The links one source contributes do not depend on the table. */
  function ContributedLinks(source: Source, o: SourceOutcome): set<string>
  {
    LinksOf(Contributed(source, o))
  }

  /** After `Fetch`, in either order, the table holds the links it held
      before and those both sources contributed, and no others. */
  lemma FetchedLinks(t: ArticleTable, outcomeOf: Source -> SourceOutcome, order: seq<nat>)
    requires IsOrder(order, |HardcodedSources|)
    ensures Links(AllFetched(t, Reorder(HardcodedSources, order), outcomeOf).rows)
            == Links(t.rows) + ContributedLinks(HardcodedSources[0], outcomeOf(HardcodedSources[0]))
               + ContributedLinks(HardcodedSources[1], outcomeOf(HardcodedSources[1]))
  {
    var a, b := HardcodedSources[order[0]], HardcodedSources[order[1]];
    assert Reorder(HardcodedSources, order) == [a, b];
    FetchedPairLinks(t, a, b, outcomeOf);
    var l0, la, lb := Links(t.rows), ContributedLinks(a, outcomeOf(a)), ContributedLinks(b, outcomeOf(b));
    assert order[0] < 2 && order[1] < 2 && order[0] != order[1];
    assert l0 + la + lb == l0 + lb + la;
  }

  /** The set of links in the table after `Fetch` is the same whichever
      order its sources run in, failures included. */
  lemma FetchLinksOrderIndependent(t: ArticleTable, outcomeOf: Source -> SourceOutcome,
                                   order1: seq<nat>, order2: seq<nat>)
    requires IsOrder(order1, |HardcodedSources|) && IsOrder(order2, |HardcodedSources|)
    ensures Links(AllFetched(t, Reorder(HardcodedSources, order1), outcomeOf).rows)
            == Links(AllFetched(t, Reorder(HardcodedSources, order2), outcomeOf).rows)
  {
    FetchedLinks(t, outcomeOf, order1);
    FetchedLinks(t, outcomeOf, order2);
  }

  lemma FetchedPairLinks(t: ArticleTable, a: Source, b: Source, outcomeOf: Source -> SourceOutcome)
    ensures Links(AllFetched(t, [a, b], outcomeOf).rows)
            == Links(t.rows) + ContributedLinks(a, outcomeOf(a)) + ContributedLinks(b, outcomeOf(b))
  {
    var t1 := SourceFetched(t, a, outcomeOf(a));
    assert [a, b][1..] == [b];
    assert AllFetched(t, [a, b], outcomeOf) == AllFetched(t1, [b], outcomeOf);
    assert [b][1..] == [];
    assert AllFetched(t1, [b], outcomeOf) == SourceFetched(t1, b, outcomeOf(b));
  }
}
