/** The news handlers' own rules: the excerpt shown with every article read,
    and the unpublished default of a new article. */
module News {
  import opened Wrappers
  import opened Db
  import opened Http

  /** Go strings are byte strings: lengths and slices count bytes. */
  newtype Byte = x: int | 0 <= x < 256

  const ExcerptLimit: nat := 200
  /** "..." */
  const Ellipsis: seq<Byte> := [0x2E, 0x2E, 0x2E]

  /** The excerpt of an article's content: the content itself when it has at
      most 200 bytes, else its first 200 bytes followed by "...". */
  function Excerpt(content: seq<Byte>): (e: seq<Byte>)
    ensures |content| <= ExcerptLimit ==> e == content
    ensures |content| > ExcerptLimit ==> |e| == ExcerptLimit + |Ellipsis| && e[ExcerptLimit..] == Ellipsis
    ensures |e| <= ExcerptLimit + |Ellipsis|
    ensures var k := if |content| < ExcerptLimit then |content| else ExcerptLimit;
      k <= |e| && e[..k] == content[..k]
  {
    if |content| > 200 then content[..200] + Ellipsis else content
  }

  datatype NewsArticle = NewsArticle(
    id: string,
    title: string,
    content: seq<Byte>,
    excerpt: seq<Byte>,
    author: string,
    image: string,
    published: bool)

  /** What the read handlers do to each article they return. */
  function WithExcerpt(a: NewsArticle): (r: NewsArticle)
    ensures r.excerpt == Excerpt(a.content)
    ensures r.(excerpt := a.excerpt) == a
  {
    a.(excerpt := Excerpt(a.content))
  }

  /** The articles GetNews returns for the rows it reads, in order; a row that
      fails to scan (None) is skipped. */
  function Listed(rows: seq<Option<NewsArticle>>): (r: seq<NewsArticle>)
    ensures |r| <= |rows|
    ensures forall j :: 0 <= j < |r| ==> r[j].excerpt == Excerpt(r[j].content)
    ensures forall j :: 0 <= j < |r| ==> exists k :: 0 <= k < |rows| && rows[k].Some? && r[j] == WithExcerpt(rows[k].value)
    decreases |rows|
  {
    if rows == [] then []
    else
      var last := rows[|rows| - 1];
      Listed(rows[..|rows| - 1]) + (if last.Some? then [WithExcerpt(last.value)] else [])
  }

  /** GetNews: a failed query is a 500; otherwise every article returned
      carries the excerpt of its content, and the articles come from the rows
      in order, skipping rows that fail to scan. `rows` is None when the query
      fails. */
  method GetNews(rows: Option<seq<Option<NewsArticle>>>) returns (r: Result<seq<NewsArticle>, Reply>)
    ensures rows.None? ==> r == Err(Error(500, "Failed to fetch news"))
    ensures rows.Some? ==> r == Ok(Listed(rows.value))
    ensures r.Ok? ==> |r.value| <= |rows.value|
    ensures r.Ok? ==> forall j :: 0 <= j < |r.value| ==> r.value[j].excerpt == Excerpt(r.value[j].content)
  {
    if rows.None? {
      return Err(Error(500, "Failed to fetch news"));
    }
    var all := rows.value;
    var articles := [];
    var i := 0;
    while i < |all|
      invariant 0 <= i <= |all|
      invariant articles == Listed(all[..i])
      invariant |articles| <= i
      invariant forall j :: 0 <= j < |articles| ==> articles[j].excerpt == Excerpt(articles[j].content)
    {
      assert all[..i + 1][..i] == all[..i];
      var row := all[i];
      i := i + 1;
      if row.None? {
        continue;
      }
      var article := row.value;
      if |article.content| > 200 {
        article := article.(excerpt := article.content[..200] + Ellipsis);
      } else {
        article := article.(excerpt := article.content);
      }
      articles := articles + [article];
    }
    assert all[..i] == all;
    r := Ok(articles);
  }

  /** GetNewsByID: 404 for an unknown id, 500 on a failed query, else the
      article with the same excerpt rule as GetNews. */
  function GetNewsByID(q: Query<NewsArticle>): (r: Result<NewsArticle, Reply>)
    ensures q.NoRows? ==> r == Err(Error(404, "News article not found"))
    ensures q.Failed? ==> r == Err(Error(500, "Failed to fetch news article"))
    ensures q.Row? ==> r.Ok? && r.value.excerpt == Excerpt(q.row.content)
                       && r.value.(excerpt := q.row.excerpt) == q.row
  {
    match q
    case NoRows => Err(Error(404, "News article not found"))
    case Failed => Err(Error(500, "Failed to fetch news article"))
    case Row(article) => Ok(WithExcerpt(article))
  }

  /** Both read handlers give an article the same excerpt. */
  lemma ReadHandlersAgree(article: NewsArticle)
    ensures GetNewsByID(Row(article)).Ok?
    ensures Listed([Some(article)]) == [GetNewsByID(Row(article)).value]
  {
    assert [Some(article)][..0] == [];
  }

  /** A 201 reply carrying the article created. */
  datatype Created = Created(status: int, article: NewsArticle)

  /** CreateNews: the bound body (400 when it does not parse) under a new id,
      always unpublished whatever the body said, answered with 201;
      `insertSucceeds` is the outcome of the INSERT (500 when not). */
  function CreateNews(body: Option<NewsArticle>, id: string, insertSucceeds: bool): (r: Result<Created, Reply>)
    ensures body.None? ==> r == Err(Error(400, "Invalid request body"))
    ensures body.Some? && !insertSucceeds ==> r == Err(Error(500, "Failed to create news"))
    ensures r.Ok? <==> body.Some? && insertSucceeds
    ensures r.Ok? ==> r.value.status == 201
    ensures r.Ok? ==> !r.value.article.published && r.value.article.id == id
                      && r.value.article.(id := body.value.id, published := body.value.published) == body.value
  {
    if body.None? then Err(Error(400, "Invalid request body"))
    else
      var article := body.value.(id := id, published := false);
      if insertSucceeds then Ok(Created(201, article)) else Err(Error(500, "Failed to create news"))
  }
}
