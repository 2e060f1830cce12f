/** The articles table as its SQL statements use it, held in memory as a
    sequence of rows. Each statement is atomic. */
module Articles {
  import opened Wrappers
  import opened Models
  import opened Rows

  /** A row of `articles`. `postedAt` is the nullable `posted_at` column.
      Categories have no column. */
  datatype ArticleRow = ArticleRow(id: int, sourceId: int, title: string, link: string,
                                   publishedAt: Time, postedAt: Option<Time>)

  /** The table's rows in storage order, and the next value of the `id`
      sequence. */
  datatype ArticleTable = ArticleTable(rows: seq<ArticleRow>, nextId: int)

  function Links(rows: seq<ArticleRow>): set<string>
  {
    set i | 0 <= i < |rows| :: rows[i].link
  }

  predicate LinksUnique(rows: seq<ArticleRow>)
  {
    forall i, j :: 0 <= i < j < |rows| ==> rows[i].link != rows[j].link
  }

  /** What the table keeps true: no two rows share a link or an id, and every
      id was handed out by the sequence. */
  predicate WellFormed(t: ArticleTable)
  {
    && LinksUnique(t.rows)
    && (forall i, j :: 0 <= i < j < |t.rows| ==> t.rows[i].id != t.rows[j].id)
    && (forall i :: 0 <= i < |t.rows| ==> t.rows[i].id < t.nextId)
  }

  /** The row `INSERT INTO articles (source_id, title, link, published_at)`
      creates: a fresh id and a null `posted_at`. */
  function NewRow(id: int, a: Article): ArticleRow
  {
    ArticleRow(id, a.sourceId, a.title, a.link, a.publishedAt, None)
  }

  /** `ArticleRepository.Add`: insert unless a row with the same link exists. */
  function InsertIfAbsent(t: ArticleTable, a: Article): (r: ArticleTable)
    ensures Links(r.rows) == Links(t.rows) + {a.link}
    ensures |t.rows| <= |r.rows| <= |t.rows| + 1 && r.rows[..|t.rows|] == t.rows
    ensures t.nextId <= r.nextId
    ensures WellFormed(t) ==> WellFormed(r)
  {
    if a.link in Links(t.rows) then t
    else
      var r := ArticleTable(t.rows + [NewRow(t.nextId, a)], t.nextId + 1);
      assert r.rows[..|t.rows|] == t.rows;
      assert forall i :: 0 <= i < |t.rows| ==> r.rows[i] == t.rows[i];
      LinksAppend(t.rows, NewRow(t.nextId, a));
      r
  }

  lemma LinksAppend(rows: seq<ArticleRow>, row: ArticleRow)
    ensures Links(rows + [row]) == Links(rows) + {row.link}
  {
    var all := rows + [row];
    forall l | l in Links(rows) ensures l in Links(all) {
      var i :| 0 <= i < |rows| && rows[i].link == l;
      assert all[i].link == l;
    }
    assert all[|rows|].link == row.link;
  }

  /** A link already present leaves the table as it was; a new link appends
      exactly one row carrying the article's source id, title, link and
      publication time, a fresh id and no posting time. */
  lemma InsertIfAbsentCases(t: ArticleTable, a: Article)
    ensures a.link in Links(t.rows) ==> InsertIfAbsent(t, a) == t
    ensures a.link !in Links(t.rows) ==>
              InsertIfAbsent(t, a).rows == t.rows + [ArticleRow(t.nextId, a.sourceId, a.title, a.link, a.publishedAt, None)]
  {
  }

  /** Adding the same article twice is adding it once. */
  lemma InsertIfAbsentIdempotent(t: ArticleTable, a: Article)
    ensures InsertIfAbsent(InsertIfAbsent(t, a), a) == InsertIfAbsent(t, a)
  {
  }

  /** `Add` called on each article in turn. */
  function AddAll(t: ArticleTable, articles: seq<Article>): (r: ArticleTable)
    ensures Links(r.rows) == Links(t.rows) + LinksOf(articles)
    ensures |t.rows| <= |r.rows| && r.rows[..|t.rows|] == t.rows
    ensures t.nextId <= r.nextId
    ensures WellFormed(t) ==> WellFormed(r)
    decreases |articles|
  {
    if articles == [] then t
    else
      LinksOfCons(articles);
      AddAll(InsertIfAbsent(t, articles[0]), articles[1..])
  }

  function LinksOf(articles: seq<Article>): set<string>
  {
    set i | 0 <= i < |articles| :: articles[i].link
  }

  lemma LinksOfCons(articles: seq<Article>)
    requires articles != []
    ensures LinksOf(articles) == {articles[0].link} + LinksOf(articles[1..])
  {
    assert forall i :: 1 <= i < |articles| ==> articles[i] == articles[1..][i - 1];
  }

  /** Articles whose links are all present already change nothing. */
  lemma {:induction false} AddAllPresent(t: ArticleTable, articles: seq<Article>)
    requires LinksOf(articles) <= Links(t.rows)
    ensures AddAll(t, articles) == t
    decreases |articles|
  {
    if articles != [] {
      assert articles[0].link in LinksOf(articles);
      assert LinksOf(articles[1..]) <= LinksOf(articles);
      AddAllPresent(t, articles[1..]);
    }
  }

  /** Adding the same articles a second time leaves the table as after the
      first time. */
  lemma AddAllIdempotent(t: ArticleTable, articles: seq<Article>)
    ensures AddAll(AddAll(t, articles), articles) == AddAll(t, articles)
  {
    AddAllPresent(AddAll(t, articles), articles);
  }

  /** Adding two batches in either order gives the same set of links. */
  lemma AddAllLinksCommute(t: ArticleTable, xs: seq<Article>, ys: seq<Article>)
    ensures Links(AddAll(AddAll(t, xs), ys).rows) == Links(AddAll(AddAll(t, ys), xs).rows)
  {
  }

  /** `MarkAsPosted`: `UPDATE articles SET posted_at = now WHERE id = $id`. */
  function MarkPosted(t: ArticleTable, id: int, now: Time): (r: ArticleTable)
    ensures |r.rows| == |t.rows| && r.nextId == t.nextId && Links(r.rows) == Links(t.rows)
    ensures forall i :: 0 <= i < |t.rows| && t.rows[i].id != id ==> r.rows[i] == t.rows[i]
    ensures forall i :: 0 <= i < |t.rows| && t.rows[i].id == id ==>
              r.rows[i] == t.rows[i].(postedAt := Some(now))
    ensures WellFormed(t) ==> WellFormed(r)
  {
    var rows := seq(|t.rows|, i requires 0 <= i < |t.rows| =>
                      if t.rows[i].id == id then t.rows[i].(postedAt := Some(now)) else t.rows[i]);
    assert forall i :: 0 <= i < |t.rows| ==> rows[i].link == t.rows[i].link && rows[i].id == t.rows[i].id;
    assert Links(rows) == Links(t.rows) by {
      forall l | l in Links(t.rows) ensures l in Links(rows) {
        var i :| 0 <= i < |t.rows| && t.rows[i].link == l;
        assert rows[i].link == l;
      }
    }
    ArticleTable(rows, t.nextId)
  }

  /** An id no row carries leaves the table as it was. */
  lemma MarkPostedUnknownId(t: ArticleTable, id: int, now: Time)
    requires forall i :: 0 <= i < |t.rows| ==> t.rows[i].id != id
    ensures MarkPosted(t, id, now) == t
  {
    assert MarkPosted(t, id, now).rows == t.rows;
  }

  /** The articles of `GetAllNotPostedByUserSources(userId)`:
      `SELECT a.id, a.source_id, a.title, a.link, a.published_at`. */
  function ArticleOf(row: ArticleRow): (a: Article)
    ensures a.id == row.id && a.sourceId == row.sourceId && a.title == row.title
    ensures a.link == row.link && a.publishedAt == row.publishedAt && a.categories == []
  {
    Article(row.id, row.sourceId, row.title, row.link, [], row.publishedAt)
  }

  /** The ids of the sources `userId` follows. */
  function FollowedBy(subs: seq<Subscription>, userId: int): set<int>
  {
    set i | 0 <= i < |subs| && subs[i].userId == userId :: subs[i].sourceId
  }

  /** The rows of `articles a JOIN subscriptions s ON a.source_id =
      s.source_id` for one article row and the subscriptions of `userId`. */
  function JoinRow(row: ArticleRow, subs: seq<Subscription>, userId: int): (r: seq<Article>)
    ensures forall a :: a in r ==> a == ArticleOf(row)
    ensures r != [] <==> row.sourceId in FollowedBy(subs, userId)
  {
    if subs == [] then []
    else
      var s := subs[|subs| - 1];
      var prefix := subs[..|subs| - 1];
      assert FollowedBy(subs, userId) == FollowedBy(prefix, userId)
                                         + (if s.userId == userId then {s.sourceId} else {}) by {
        assert forall i :: 0 <= i < |prefix| ==> prefix[i] == subs[i];
      }
      JoinRow(row, prefix, userId) + (if s.userId == userId && s.sourceId == row.sourceId then [ArticleOf(row)] else [])
  }

  /** The join restricted by `a.posted_at IS NULL AND s.user_id = $1`.
      SQL leaves the order of the result open; the model lists it by table
      order, then subscription order. */
  function UnpostedFor(rows: seq<ArticleRow>, subs: seq<Subscription>, userId: int): (r: seq<Article>)
    ensures forall a :: a in r ==> a.sourceId in FollowedBy(subs, userId)
  {
    if rows == [] then []
    else
      var row := rows[|rows| - 1];
      UnpostedFor(rows[..|rows| - 1], subs, userId) + (if row.postedAt.None? then JoinRow(row, subs, userId) else [])
  }

  /** An article is in the result exactly when some unposted row of a source
      the user follows is that article. */
  lemma {:induction false} UnpostedForMembers(rows: seq<ArticleRow>, subs: seq<Subscription>, userId: int, a: Article)
    ensures a in UnpostedFor(rows, subs, userId) <==>
              exists i :: 0 <= i < |rows| && rows[i].postedAt.None? && rows[i].sourceId in FollowedBy(subs, userId)
                          && a == ArticleOf(rows[i])
  {
    if rows != [] {
      var prefix := rows[..|rows| - 1];
      UnpostedForMembers(prefix, subs, userId, a);
      assert forall i :: 0 <= i < |prefix| ==> prefix[i] == rows[i];
      var row := rows[|rows| - 1];
      if a in UnpostedFor(rows, subs, userId) && a !in UnpostedFor(prefix, subs, userId) {
        assert a in JoinRow(row, subs, userId);
      }
      if a !in UnpostedFor(rows, subs, userId) {
        forall i | 0 <= i < |rows| && rows[i].postedAt.None? && rows[i].sourceId in FollowedBy(subs, userId)
          ensures a != ArticleOf(rows[i])
        {
          if i == |rows| - 1 {
            var j := JoinRow(row, subs, userId);
            assert j[0] in j;
          }
        }
      }
    }
  }

  /** The articles of `GetAll`: `SELECT source_id, title, link, published_at`
      leaves every id at zero. */
  function ArticleWithoutId(row: ArticleRow): (a: Article)
    ensures a.id == 0 && a.sourceId == row.sourceId && a.title == row.title
    ensures a.link == row.link && a.publishedAt == row.publishedAt && a.categories == []
  {
    Article(0, row.sourceId, row.title, row.link, [], row.publishedAt)
  }

  function AllArticles(rows: seq<ArticleRow>): (r: seq<Article>)
    ensures |r| == |rows|
    ensures forall i :: 0 <= i < |rows| ==> r[i] == ArticleWithoutId(rows[i])
  {
    seq(|rows|, i requires 0 <= i < |rows| => ArticleWithoutId(rows[i]))
  }

  /** The table operations that write. */
  datatype Write = AddArticle(article: Article) | MarkArticle(id: int, at: Time)

  function Apply(t: ArticleTable, writes: seq<Write>): ArticleTable
    decreases |writes|
  {
    if writes == [] then t
    else
      var t' := match writes[0]
        case AddArticle(a) => InsertIfAbsent(t, a)
        case MarkArticle(id, at) => MarkPosted(t, id, at);
      Apply(t', writes[1..])
  }

  /** Every row with id `id` has a posting time, and the sequence is past `id`. */
  predicate Posted(t: ArticleTable, id: int)
  {
    id < t.nextId && forall i :: 0 <= i < |t.rows| && t.rows[i].id == id ==> t.rows[i].postedAt.Some?
  }

  lemma {:induction false} PostedStaysPosted(t: ArticleTable, id: int, writes: seq<Write>)
    requires Posted(t, id)
    ensures Posted(Apply(t, writes), id)
    decreases |writes|
  {
    if writes != [] {
      var t' := match writes[0]
        case AddArticle(a) => InsertIfAbsent(t, a)
        case MarkArticle(i, at) => MarkPosted(t, i, at);
      assert Posted(t', id);
      PostedStaysPosted(t', id, writes[1..]);
    }
  }

  /** Once the article with id `id` (an id the table handed out) is marked
      posted, no later sequence of inserts and updates brings it back into
      any user's unposted articles. */
  lemma MarkedNeverUnposted(t: ArticleTable, id: int, now: Time, writes: seq<Write>,
                            subs: seq<Subscription>, userId: int)
    requires id < t.nextId
    ensures forall a :: a in UnpostedFor(Apply(MarkPosted(t, id, now), writes).rows, subs, userId) ==> a.id != id
  {
    PostedStaysPosted(MarkPosted(t, id, now), id, writes);
    var rows := Apply(MarkPosted(t, id, now), writes).rows;
    forall a | a in UnpostedFor(rows, subs, userId) ensures a.id != id {
      UnpostedForMembers(rows, subs, userId, a);
    }
  }

  /** `ArticleRepository`: the table behind the pgx pool. Database errors are
      parameters; a statement that fails changes nothing. */
  class ArticleRepository {
    var rows: seq<ArticleRow>
    var nextId: int

    function Table(): ArticleTable
      reads this
    {
      ArticleTable(rows, nextId)
    }

    ghost predicate Valid()
      reads this
    {
      WellFormed(Table())
    }

    constructor (initial: ArticleTable)
      requires WellFormed(initial)
      ensures Valid() && Table() == initial
    {
      rows := initial.rows;
      nextId := initial.nextId;
    }

    /** `Add`: the database error is returned unchanged, otherwise nil. */
    method Add(article: Article, dbErr: Option<Error>) returns (err: Option<Error>)
      requires Valid()
      modifies this
      ensures Valid() && err == dbErr
      ensures Table() == if dbErr.Some? then old(Table()) else InsertIfAbsent(old(Table()), article)
    {
      if dbErr.Some? {
        return dbErr;
      }
      var t := InsertIfAbsent(Table(), article);
      rows, nextId := t.rows, t.nextId;
      err := None;
    }

    /** `GetAll`: every row without its id. A failed iteration is not
        reported: the rows read so far come back as a success. */
    method GetAll(f: RowsFault) returns (r: Result<seq<Article>, Error>)
      ensures r == Collect(AllArticles(rows), f, false)
    {
      r := ScanRows(AllArticles(rows), f, false);
    }

    /** `GetAllNotPostedByUserSources(userId)`: the unposted articles of the
        sources the user follows, with their ids. */
    method GetAllNotPostedByUserSources(userId: int, subs: seq<Subscription>, f: RowsFault)
      returns (r: Result<seq<Article>, Error>)
      ensures r == Collect(UnpostedFor(rows, subs, userId), f, true)
    {
      r := ScanRows(UnpostedFor(rows, subs, userId), f, true);
    }

    /** `MarkAsPosted`: set `posted_at` on the row with the article's id. */
    method MarkAsPosted(article: Article, now: Time, dbErr: Option<Error>) returns (err: Option<Error>)
      requires Valid()
      modifies this
      ensures Valid() && err == dbErr
      ensures Table() == if dbErr.Some? then old(Table()) else MarkPosted(old(Table()), article.id, now)
    {
      if dbErr.Some? {
        return dbErr;
      }
      var t := MarkPosted(Table(), article.id, now);
      rows := t.rows;
      err := None;
    }
  }

  /** GetAll returns one article per row when nothing fails, and never an
      id. */
  lemma GetAllResult(rows: seq<ArticleRow>, f: RowsFault)
    ensures f.NoFault? ==> Collect(AllArticles(rows), f, false) == Success(AllArticles(rows))
    ensures Collect(AllArticles(rows), f, false).Success? ==>
              var got := Collect(AllArticles(rows), f, false).value;
              |got| <= |rows| && forall i :: 0 <= i < |got| ==> got[i] == ArticleWithoutId(rows[i]) && got[i].id == 0
  {
  }

  /** GetAllNotPostedByUserSources returns only unposted articles of followed
      sources, and on success all of them. */
  lemma UnpostedResult(rows: seq<ArticleRow>, subs: seq<Subscription>, userId: int, f: RowsFault)
    ensures var r := Collect(UnpostedFor(rows, subs, userId), f, true);
            r.Success? ==> forall a :: a in r.value <==>
              exists i :: 0 <= i < |rows| && rows[i].postedAt.None? && rows[i].sourceId in FollowedBy(subs, userId)
                          && a == ArticleOf(rows[i])
  {
    forall a ensures a in UnpostedFor(rows, subs, userId) <==>
              exists i :: 0 <= i < |rows| && rows[i].postedAt.None? && rows[i].sourceId in FollowedBy(subs, userId)
                          && a == ArticleOf(rows[i])
    {
      UnpostedForMembers(rows, subs, userId, a);
    }
  }
}
