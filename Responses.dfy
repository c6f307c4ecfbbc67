/**
 * The API's result envelope (`Response<T>`), the paging arguments
 * (`ValidFilter`) and the Skip/Take arithmetic built on them.
 */
module Responses {
  import opened Wrappers

  /** The three `HttpStatusCode` values the services use, as their integer codes. */
  const OK: int := 200
  const BadRequest: int := 400
  const NotFound: int := 404

  /** `Response<T>`: success flag, optional payload, HTTP status code and optional message. */
  datatype Response<T> = Response(isSuccess: bool, data: Option<T>, statusCode: int, message: Option<string>)

  /**
   * How a call that saves ends: with the response it returns, or with the
   * exception `SaveChangesAsync` throws when the database refuses the write,
   * in which case nothing is returned and nothing is saved.
   */
  datatype Outcome<T> = Returned(response: Response<T>) | Thrown

  /** `new Response<T>(data)`. */
  function FromData<T>(data: Option<T>): (r: Response<T>)
    ensures r.isSuccess && r.statusCode == OK && r.message == None && r.data == data
  {
    Response(true, data, OK, None)
  }

  /** `new Response<T>(statusCode, message)`: no payload. */
  function FromError<T>(statusCode: int, message: string): (r: Response<T>)
    ensures !r.isSuccess && r.data == None && r.statusCode == statusCode && r.message == Some(message)
  {
    Response(false, None, statusCode, Some(message))
  }

  /** `Response<T>.Success(data)`. */
  function Success<T>(data: T): Response<T>
  {
    Response(true, Some(data), OK, None)
  }

  /** `Response<T>.Success(data, message)`. */
  function SuccessWithMessage<T>(data: T, message: string): Response<T>
  {
    Response(true, Some(data), OK, Some(message))
  }

  /** `Success(data)` builds, field for field, what the data constructor builds. */
  lemma SuccessIsDataConstructor<T>(data: T)
    ensures Success(data) == FromData(Some(data))
  {
  }

  /** `Success(data, message)` is a 200 success that carries both the data and the message. */
  lemma SuccessWithMessageKeepsMessage<T>(data: T, message: string)
    ensures var r := SuccessWithMessage(data, message);
      r.isSuccess && r.statusCode == OK && r.data == Some(data) && r.message == Some(message)
    ensures SuccessWithMessage(data, message) != Success(data)
  {
  }

  /** The arguments of `PagedResponse<T>`'s constructor: the page, the clamped paging values and the total count. */
  datatype Paged<T> = Paged(data: T, pageNumber: int, pageSize: int, totalRecords: int)

  /** `ValidFilter`: page number and page size after clamping. */
  datatype ValidFilter = ValidFilter(pageNumber: int, pageSize: int)

  const MinPageNumber: int := 1
  const MinPageSize: int := 12

  /** `new ValidFilter(pageNumber, pageSize)`: raise each value to its lower bound. */
  function MakeValidFilter(pageNumber: int, pageSize: int): (f: ValidFilter)
    ensures f.pageNumber >= MinPageNumber && f.pageSize >= MinPageSize
    ensures pageNumber >= MinPageNumber ==> f.pageNumber == pageNumber
    ensures pageSize >= MinPageSize ==> f.pageSize == pageSize
    ensures pageNumber < MinPageNumber ==> f.pageNumber == MinPageNumber
    ensures pageSize < MinPageSize ==> f.pageSize == MinPageSize
  {
    ValidFilter(if pageNumber < 1 then 1 else pageNumber, if pageSize < 12 then 12 else pageSize)
  }

  /** Clamping its own output changes nothing. */
  lemma ValidFilterIdempotent(pageNumber: int, pageSize: int)
    ensures var f := MakeValidFilter(pageNumber, pageSize);
      MakeValidFilter(f.pageNumber, f.pageSize) == f
  {
  }

  /** The number of rows `Skip` passes over: `(PageNumber - 1) * PageSize`. */
  function SkipCount(f: ValidFilter): int
  {
    (f.pageNumber - 1) * f.pageSize
  }

  /** Every clamped filter skips a non-negative number of rows. */
  lemma SkipCountNonNegative(pageNumber: int, pageSize: int)
    ensures SkipCount(MakeValidFilter(pageNumber, pageSize)) >= 0
  {
    var f := MakeValidFilter(pageNumber, pageSize);
    assert (f.pageNumber - 1) * f.pageSize >= 0 * f.pageSize;
  }

  /** The number of rows `Take(take)` keeps after skipping `skip` of `n`. */
  function PageLength(n: int, skip: int, take: int): int
  {
    if skip >= n then 0 else if skip + take <= n then take else n - skip
  }

  /** `Skip(skip).Take(take)` on a list. */
  function Page<T>(xs: seq<T>, skip: int, take: int): (r: seq<T>)
    requires skip >= 0 && take >= 0
    ensures |r| <= take
    ensures |r| == PageLength(|xs|, skip, take)
    ensures forall i :: 0 <= i < |r| ==> skip + i < |xs| && r[i] == xs[skip + i]
  {
    if skip >= |xs| then []
    else if skip + take <= |xs| then xs[skip..skip + take]
    else xs[skip..]
  }

  /** A page of `xs` after clamping the filter, with the total count of `xs`. */
  function Paginate<T>(xs: seq<T>, pageNumber: int, pageSize: int): (r: Paged<seq<T>>)
    ensures var vf := MakeValidFilter(pageNumber, pageSize);
      r.pageNumber == vf.pageNumber && r.pageSize == vf.pageSize
    ensures r.pageNumber >= MinPageNumber && r.pageSize >= MinPageSize && |r.data| <= r.pageSize
    ensures r.totalRecords == |xs|
    ensures forall t :: t in r.data ==> t in xs
    ensures var skip := SkipCount(MakeValidFilter(pageNumber, pageSize));
      skip >= 0 && |r.data| == PageLength(|xs|, skip, r.pageSize) &&
      forall i :: 0 <= i < |r.data| ==> skip + i < |xs| && r.data[i] == xs[skip + i]
  {
    var vf := MakeValidFilter(pageNumber, pageSize);
    SkipCountNonNegative(pageNumber, pageSize);
    Paged(Page(xs, SkipCount(vf), vf.pageSize), vf.pageNumber, vf.pageSize, |xs|)
  }

  /**
   * Every row of a list lies on its page: with a page size at or above the
   * minimum, row `i` is entry `i % pageSize` of page `i / pageSize + 1`.
   */
  lemma EveryRowOnItsPage<T>(xs: seq<T>, pageSize: int, i: int)
    requires pageSize >= MinPageSize && 0 <= i < |xs|
    ensures var page := Paginate(xs, i / pageSize + 1, pageSize).data;
      i % pageSize < |page| && page[i % pageSize] == xs[i]
  {
    var q, m := i / pageSize, i % pageSize;
    assert SkipCount(MakeValidFilter(q + 1, pageSize)) == q * pageSize;
    assert q * pageSize + m == i;
  }

  /** Consecutive pages meet: the row after the last one of a full page opens the next page. */
  lemma PagesAreConsecutive<T>(xs: seq<T>, pageNumber: int, pageSize: int)
    requires pageNumber >= MinPageNumber && pageSize >= MinPageSize
    requires pageNumber * pageSize < |xs|
    ensures var page := Paginate(xs, pageNumber, pageSize).data;
      var next := Paginate(xs, pageNumber + 1, pageSize).data;
      |page| == pageSize && |next| > 0 && next[0] == xs[pageNumber * pageSize]
  {
    assert SkipCount(MakeValidFilter(pageNumber, pageSize)) + pageSize == pageNumber * pageSize;
    assert SkipCount(MakeValidFilter(pageNumber + 1, pageSize)) == pageNumber * pageSize;
  }
}
