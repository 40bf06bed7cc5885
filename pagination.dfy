/**
 * The market listing (`getAllQuestions` in src/controllers/questionController.ts):
 * default query parameters and the pagination arithmetic applied around the store's
 * page query and count.
 */
module Pagination {
  import opened Common

  /** The listing's query string; an absent parameter is `None`. */
  datatype ListQuery = ListQuery(
    page: Option<string>,
    limit: Option<string>,
    category: Option<string>,
    status: Option<string>,
    search: Option<string>,
    sortBy: Option<string>,
    sortOrder: Option<string>)

  /** The query after destructuring with defaults. */
  datatype ListParams = ListParams(
    page: string,
    limit: string,
    category: Option<string>,
    status: string,
    search: Option<string>,
    sortBy: string,
    sortOrder: string)

  /** The `pagination` block of the response, with the `skip`/`take` handed to the store. */
  datatype PageInfo = PageInfo(
    skip: int,
    take: int,
    page: int,
    limit: int,
    total: nat,
    totalPages: nat,
    hasNext: bool,
    hasPrev: bool)

  /**
   * Destructuring defaults: page '1', limit '10', status 'ACTIVE', sortBy 'createdAt',
   * sortOrder 'desc'; a given parameter (even an empty one) is kept; category and
   * search have no default.
   */
  function WithDefaults(q: ListQuery): (p: ListParams)
    ensures q.page.None? ==> p.page == "1"
    ensures q.limit.None? ==> p.limit == "10"
    ensures q.status.None? ==> p.status == "ACTIVE"
    ensures q.sortBy.None? ==> p.sortBy == "createdAt"
    ensures q.sortOrder.None? ==> p.sortOrder == "desc"
    ensures q.page.Some? ==> p.page == q.page.value
    ensures q.limit.Some? ==> p.limit == q.limit.value
    ensures q.status.Some? ==> p.status == q.status.value
    ensures q.sortBy.Some? ==> p.sortBy == q.sortBy.value
    ensures q.sortOrder.Some? ==> p.sortOrder == q.sortOrder.value
    ensures p.category == q.category && p.search == q.search
  {
    ListParams(
      Default(q.page, "1"),
      Default(q.limit, "10"),
      q.category,
      Default(q.status, "ACTIVE"),
      q.search,
      Default(q.sortBy, "createdAt"),
      Default(q.sortOrder, "desc"))
  }

  /** `Math.ceil(total / limit)` for a positive page size. */
  function CeilDiv(total: nat, limit: int): (n: nat)
    requires limit > 0
    ensures n * limit >= total
    ensures total > (n - 1) * limit
  {
    var n := (total + limit - 1) / limit;
    CeilDivBounds(total, limit, n);
    n
  }

  lemma CeilDivBounds(total: nat, limit: int, n: int)
    requires limit > 0 && n == (total + limit - 1) / limit
    ensures n >= 0 && n * limit >= total && total > (n - 1) * limit
  {
    var r := (total + limit - 1) % limit;
    assert total + limit - 1 == n * limit + r && 0 <= r < limit;
    assert (n - 1) * limit == n * limit - limit;
  }

  /**
   * The pagination metadata for page `page` of `limit` entries out of `total` matches.
   * `page` and `limit` are the results of `parseInt` on the query parameters.
   */
  function Paginate(page: int, limit: int, total: nat): (r: PageInfo)
    requires limit > 0
    ensures r.skip == (page - 1) * limit && r.take == limit
    ensures r.page == page && r.limit == limit && r.total == total
    ensures r.totalPages * limit >= total && total > (r.totalPages - 1) * limit
    ensures r.hasNext <==> page < r.totalPages
    ensures r.hasPrev <==> page > 1
  {
    var totalPages := CeilDiv(total, limit);
    PageInfo(
      (page - 1) * limit,
      limit,
      page,
      limit,
      total,
      totalPages,
      page < totalPages,
      page > 1)
  }

  /** The two bounds of `Paginate` pin the page count down: it is the ceiling of total/limit. */
  lemma TotalPagesUnique(total: nat, limit: int, n: int, m: int)
    requires limit > 0
    requires n * limit >= total && total > (n - 1) * limit
    requires m * limit >= total && total > (m - 1) * limit
    ensures n == m
  {
  }

  /** No matches at all: zero pages, so neither a next page nor (on page 1) a previous one. */
  lemma EmptyListing(limit: int)
    requires limit > 0
    ensures var r := Paginate(1, limit, 0);
            r.totalPages == 0 && !r.hasNext && !r.hasPrev && r.skip == 0
  {
  }
}
