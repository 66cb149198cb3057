/** The JSON envelopes the HTTP layer writes: a plain envelope for single results and
    errors, and a paginated one for lists, whose `total_pages` is the ceiling of
    total / limit. Writing to the connection becomes returning the status and body. */
module Response {
  import opened Outcomes

  /** `{success, message, data?, error?}`; `data` is omitted when `None`, `error` when empty. */
  datatype Response<D> = Response(success: bool, message: string, data: Option<D>, error: string)

  /** `total_pages` is `None` when `limit` is 0: the quotient is then infinite or NaN
      and its conversion to an integer is left to the platform. */
  datatype Pagination = Pagination(page: int, limit: int, total: int, totalPages: Option<int>)

  /** `{success, message, data, pagination}`. */
  datatype PaginatedResponse<D> = PaginatedResponse(success: bool, message: string, data: D, pagination: Pagination)

  datatype Body<D> = Plain(response: Response<D>) | Paged(paged: PaginatedResponse<D>)

  /** A status code and the body written with it. */
  datatype Written<D> = Written(status: int, body: Body<D>)

  /** The least integer q with q >= n / d, for any non-zero d (the ceiling of the
      real quotient). */
  function CeilDiv(n: int, d: int): (q: int)
    requires d != 0
    ensures d > 0 ==> (q - 1) * d < n <= q * d
    ensures d < 0 ==> q * d <= n < (q - 1) * d
  {
    if d > 0 then
      var m := -n;
      assert m == (m / d) * d + m % d && 0 <= m % d < d;
      -(m / d)
    else
      assert n == (n / -d) * -d + n % -d && 0 <= n % -d < -d;
      -(n / -d)
  }

  /** Two integers that both satisfy the ceiling bounds for a positive divisor coincide. */
  lemma {:induction false} CeilUnique(n: int, d: int, q: int, q': int)
    requires d > 0
    requires (q - 1) * d < n <= q * d
    requires (q' - 1) * d < n <= q' * d
    ensures q == q'
  {
    if q < q' {
      MulLe(q, q' - 1, d);
    } else if q' < q {
      MulLe(q', q - 1, d);
    }
  }

  lemma MulLe(a: int, b: int, d: int)
    requires a <= b && d > 0
    ensures a * d <= b * d
  {
    assert b * d - a * d == (b - a) * d;
  }

  /** For a positive limit, the ceiling is the integer formula (total + limit - 1) / limit. */
  lemma {:induction false} CeilDivFormula(total: int, limit: int)
    requires limit > 0
    ensures CeilDiv(total, limit) == (total + limit - 1) / limit
  {
    var m := total + limit - 1;
    var q := m / limit;
    assert m == q * limit + m % limit && 0 <= m % limit < limit;
    assert (q - 1) * limit == q * limit - limit;
    CeilUnique(total, limit, CeilDiv(total, limit), q);
  }

  /** When the limit divides the total, there are exactly total / limit pages. */
  lemma {:induction false} ExactPages(total: int, limit: int)
    requires limit > 0 && total % limit == 0
    ensures CeilDiv(total, limit) == total / limit
  {
    var q := total / limit;
    assert total == q * limit;
    assert (q - 1) * limit == q * limit - limit;
    CeilUnique(total, limit, CeilDiv(total, limit), q);
  }

  /** No records means no pages, whatever the (non-zero) limit. */
  lemma {:induction false} NoRecordsNoPages(limit: int)
    requires limit != 0
    ensures CeilDiv(0, limit) == 0
  {
    if limit > 0 {
      ExactPages(0, limit);
    }
  }

  /** `math.Ceil(float64(total) / float64(limit))` converted to an integer. */
  function TotalPages(total: int, limit: int): (r: Option<int>)
    ensures r.Some? <==> limit != 0
    ensures r.Some? ==> r.value == CeilDiv(total, limit)
  {
    if limit == 0 then None else Some(CeilDiv(total, limit))
  }

  /** A success envelope: success set, no error text. */
  function Success<D>(status: int, message: string, data: Option<D>): (w: Written<D>)
    ensures w.status == status && w.body.Plain?
    ensures w.body.response.success && w.body.response.error == ""
    ensures w.body.response.message == message && w.body.response.data == data
  {
    Written(status, Plain(Response(true, message, data, "")))
  }

  /** An error envelope: success cleared, the detail in `error`, no data. */
  function Error<D>(status: int, message: string, detail: string): (w: Written<D>)
    ensures w.status == status && w.body.Plain?
    ensures !w.body.response.success && w.body.response.data.None?
    ensures w.body.response.message == message && w.body.response.error == detail
  {
    Written(status, Plain(Response(false, message, None, detail)))
  }

  /** A paginated envelope: always a success, echoing page, limit and total as given. */
  function Paginated<D>(status: int, message: string, data: D, page: int, limit: int, total: int): (w: Written<D>)
    ensures w.status == status && w.body.Paged?
    ensures w.body.paged.success && w.body.paged.message == message && w.body.paged.data == data
    ensures w.body.paged.pagination.page == page && w.body.paged.pagination.limit == limit
    ensures w.body.paged.pagination.total == total
    ensures w.body.paged.pagination.totalPages == TotalPages(total, limit)
  {
    Written(status, Paged(PaginatedResponse(true, message, data, Pagination(page, limit, total, TotalPages(total, limit)))))
  }
}
