/**
 * The pagination middleware: the requested page and page size become an
 * offset and a limit in the request's query.
 */
module Pagination {
  import opened Wrappers
  import opened Requests

  const DefaultPage: int := 1
  const DefaultPageRecords: int := 10
  const MaxPageRecords: int := 20

  /** `reqPage || DEFAULT_PAGE`: NaN and 0 are falsy. */
  function ServerPage(reqPage: Option<int>): (page: int)
    ensures page != 0
    ensures reqPage.None? || reqPage == Some(0) ==> page == DefaultPage
    ensures reqPage.Some? && reqPage.value != 0 ==> page == reqPage.value
  {
    if reqPage.None? || reqPage.value == 0 then DefaultPage else reqPage.value
  }

  /** Only a requested size of exactly 20 is honoured; anything else gets 10. */
  function ServerLimit(reqLimit: Option<int>): (limit: int)
    ensures limit == MaxPageRecords <==> reqLimit == Some(MaxPageRecords)
    ensures limit == MaxPageRecords || limit == DefaultPageRecords
  {
    if reqLimit.Some? && reqLimit.value != 0 && reqLimit.value == MaxPageRecords then reqLimit.value
    else DefaultPageRecords
  }

  /** The offset of the first row of a page. */
  function Offset(page: int, limit: int): (offset: int)
    ensures page >= 1 && limit >= 0 ==> offset >= 0
    ensures page == 1 ==> offset == 0
  {
    (page - 1) * limit
  }

  /** The number of rows on the pages before `page`, each page holding `limit` rows. */
  function RowsBefore(page: int, limit: int): (n: int)
    ensures page <= 1 ==> n == 0
    decreases page
  {
    if page <= 1 then 0 else RowsBefore(page - 1, limit) + limit
  }

  /** A page starts right after the rows of all earlier pages. */
  lemma {:induction false} OffsetSkipsEarlierPages(page: int, limit: int)
    requires page >= 1
    ensures Offset(page, limit) == RowsBefore(page, limit)
    decreases page
  {
    if page > 1 {
      OffsetSkipsEarlierPages(page - 1, limit);
      assert Offset(page, limit) == Offset(page - 1, limit) + limit;
    }
  }

  /** The next page starts where this one ends. */
  lemma OffsetNextPage(page: int, limit: int)
    ensures Offset(page + 1, limit) == Offset(page, limit) + limit
  {
    assert page * limit == (page - 1) * limit + limit;
  }

  /** The query after the middleware: `page` and `limit` removed, then `offset` and `limit` set. */
  function PaginatedQuery(query: map<string, QueryValue>): (r: map<string, QueryValue>)
    ensures r.Keys == (query.Keys - {"page"}) + {"offset", "limit"}
    ensures forall k :: k in query && k != "page" && k != "limit" && k != "offset" ==> k in r && r[k] == query[k]
    ensures r["limit"] == Num(ServerLimit(ParseIntValue(if "limit" in query then Some(query["limit"]) else None)))
    ensures r["offset"] == Num(Offset(ServerPage(ParseIntValue(if "page" in query then Some(query["page"]) else None)),
                                      ServerLimit(ParseIntValue(if "limit" in query then Some(query["limit"]) else None))))
  {
    var page := ServerPage(ParseIntValue(if "page" in query then Some(query["page"]) else None));
    var limit := ServerLimit(ParseIntValue(if "limit" in query then Some(query["limit"]) else None));
    (query - {"page", "limit"})["offset" := Num(Offset(page, limit))]["limit" := Num(limit)]
  }

  /** A page number at least 1 gives a non-negative offset, a multiple of the limit. */
  lemma OffsetOfPositivePage(query: map<string, QueryValue>)
    ensures var page := ServerPage(ParseIntValue(if "page" in query then Some(query["page"]) else None));
      page >= 1 ==> PaginatedQuery(query)["offset"].Num? && PaginatedQuery(query)["offset"].n >= 0 &&
                    PaginatedQuery(query)["offset"].n % PaginatedQuery(query)["limit"].n == 0
  {
    var page := ServerPage(ParseIntValue(if "page" in query then Some(query["page"]) else None));
    var limit := ServerLimit(ParseIntValue(if "limit" in query then Some(query["limit"]) else None));
    var offset := Offset(page, limit);
    assert offset == (page - 1) * limit;
    if page >= 1 {
      assert offset % limit == 0 by {
        if limit == 10 {
          assert (page - 1) * 10 % 10 == 0;
        } else {
          assert (page - 1) * 20 % 20 == 0;
        }
      }
    }
  }

  /** The request whose query the middleware rewrites in place. */
  class Request {
    var query: map<string, QueryValue>

    constructor (q: map<string, QueryValue>)
      ensures query == q
    {
      query := q;
    }

    /** Deletes `page` and `limit`, then assigns `offset` and `limit`. */
    method Paginate()
      modifies this
      ensures query == PaginatedQuery(old(query))
    {
      var q := query;
      var reqPage := ParseIntValue(if "page" in q then Some(q["page"]) else None);
      var reqLimit := ParseIntValue(if "limit" in q then Some(q["limit"]) else None);
      var serverPage := ServerPage(reqPage);
      var serverLimit := ServerLimit(reqLimit);
      var withoutPage := q - {"page"};
      var withoutBoth := withoutPage - {"limit"};
      assert withoutBoth == q - {"page", "limit"};
      query := withoutBoth["offset" := Num(Offset(serverPage, serverLimit))]["limit" := Num(serverLimit)];
    }
  }
}
