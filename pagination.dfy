// `getPaginationParams` and `buildMeta` of the TypeScript backend.
module Pagination {

  /** A JavaScript number, as far as the clamps distinguish them. `Number(...)`
      of a query value (NaN for an absent one) is the input. */
  datatype JsNumber = NaN | Fin(v: real) | PosInf | NegInf

  predicate TruthyNumber(n: JsNumber)
  {
    !n.NaN? && n != Fin(0.0)
  }

  /** `n || d` for a number `n`. */
  function OrNumber(n: JsNumber, d: real): (r: JsNumber)
    ensures TruthyNumber(n) ==> r == n
    ensures !TruthyNumber(n) ==> r == Fin(d)
  {
    if TruthyNumber(n) then n else Fin(d)
  }

  /** `Math.max(lo, n)` for a number that is not NaN. */
  function MaxWith(lo: real, n: JsNumber): (r: JsNumber)
    requires !n.NaN?
  {
    match n
    case Fin(v) => Fin(if v < lo then lo else v)
    case PosInf => PosInf
    case NegInf => Fin(lo)
  }

  /** `Math.min(n, hi)` for a number that is not NaN. */
  function MinWith(n: JsNumber, hi: real): (r: JsNumber)
    requires !n.NaN?
  {
    match n
    case Fin(v) => Fin(if v > hi then hi else v)
    case PosInf => Fin(hi)
    case NegInf => NegInf
  }

  datatype PaginationParams = PaginationParams(page: JsNumber, pageSize: JsNumber)

  const DefaultPage: real := 1.0
  const DefaultPageSize: real := 25.0
  const MaxPageSize: real := 100.0

  /** `page` is at least 1 (an infinite page stays infinite), `pageSize` is a
      finite number in [1, 100]; a falsy value (absent, 0, NaN) takes the
      default, and a value already in range is kept. */
  function GetPaginationParams(pageQuery: JsNumber, pageSizeQuery: JsNumber): (r: PaginationParams)
    ensures r.page.Fin? || r.page.PosInf?
    ensures r.page.Fin? ==> r.page.v >= 1.0
    ensures r.page.PosInf? <==> pageQuery.PosInf?
    ensures r.pageSize.Fin? && 1.0 <= r.pageSize.v <= MaxPageSize
    ensures !TruthyNumber(pageQuery) ==> r.page == Fin(DefaultPage)
    ensures !TruthyNumber(pageSizeQuery) ==> r.pageSize == Fin(DefaultPageSize)
    ensures pageQuery.Fin? && pageQuery.v >= 1.0 ==> r.page == pageQuery
    ensures pageSizeQuery.Fin? && 1.0 <= pageSizeQuery.v <= MaxPageSize ==> r.pageSize == pageSizeQuery
  {
    var page := OrNumber(pageQuery, DefaultPage);
    var pageSize := OrNumber(pageSizeQuery, DefaultPageSize);
    PaginationParams(MaxWith(1.0, page), MinWith(MaxWith(1.0, pageSize), MaxPageSize))
  }

  /** Whole-number query values give whole-number parameters, which is what
      the listings below take. */
  lemma WholeQueryWholeParams(page: int, pageSize: int)
    ensures var r := GetPaginationParams(Fin(page as real), Fin(pageSize as real));
      r.page.Fin? && r.pageSize.Fin?
      && r.page.v == (if page < 1 then 1 else page) as real
      && r.pageSize.v == (if pageSize < 1 then (if pageSize == 0 then 25 else 1)
                          else if pageSize > 100 then 100 else pageSize) as real
  {
  }

  datatype PaginatedResult<T> = PaginatedResult(items: seq<T>, total: nat, page: nat,
                                                pageSize: nat, totalPages: nat)

  datatype PageInfo = PageInfo(page: nat, pageSize: nat, total: nat, totalPages: nat)
  datatype Meta = Meta(pagination: PageInfo)

  /** The `pagination` meta object copies the four counters. */
  function BuildMeta<T>(result: PaginatedResult<T>): (m: Meta)
    ensures m.pagination.page == result.page && m.pagination.pageSize == result.pageSize
    ensures m.pagination.total == result.total && m.pagination.totalPages == result.totalPages
  {
    Meta(PageInfo(result.page, result.pageSize, result.total, result.totalPages))
  }

  /** `Math.ceil(total / pageSize) || 1`. */
  function TotalPages(total: nat, pageSize: nat): (r: nat)
    requires pageSize >= 1
    ensures r >= 1
    ensures total == 0 ==> r == 1
    ensures total > 0 ==> (r - 1) * pageSize < total <= r * pageSize
  {
    if total == 0 then 1
    else
      var q := (total - 1) / pageSize;
      assert total - 1 == q * pageSize + (total - 1) % pageSize;
      assert (q + 1) * pageSize == q * pageSize + pageSize;
      q + 1
  }

  /** The page count is the least number of pages of `pageSize` that hold
      `total` items (and one page when there are none). */
  lemma TotalPagesLeast(total: nat, pageSize: nat, n: nat)
    requires pageSize >= 1 && n >= 1 && total <= n * pageSize
    ensures TotalPages(total, pageSize) <= n
  {
    var r := TotalPages(total, pageSize);
    if total > 0 && r > n {
      assert (r - 1) * pageSize >= n * pageSize by {
        assert r - 1 >= n;
        MulMono(n, r - 1, pageSize);
      }
      assert false;
    }
  }

  lemma MulMono(a: nat, b: nat, c: nat)
    requires a <= b
    ensures a * c <= b * c
  {
  }
}
