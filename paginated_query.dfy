/**
 * usePaginatedQuery: a page cursor over a paginated endpoint. The hook keeps
 * the current page, the page count, the items of the current page, a
 * loading flag and the last error; it builds the request URL from the page
 * and the page size and reads the page count from the response.
 */
module PaginatedQuery {
  import opened Wrappers
  import Text
  import Http

  const DefaultPageSize := 10
  const DefaultInitialPage := 1

  // ---------------------------------------------------------------------
  // The request URL

  function Separator(url: string): char {
    if '?' in url then '&' else '?'
  }

  /**
   * `${url}${separator}page=${page}&page_size=${pageSize}`: the base URL,
   * then '&' when the base already has a query and '?' otherwise, then the
   * page query.
   */
  function PageUrl(url: string, page: int, pageSize: int): (u: string)
    ensures |u| > |url| && u[..|url|] == url
    ensures u[|url|] == '&' <==> '?' in url
    ensures u[|url|] == '?' <==> '?' !in url
    ensures u[|url| + 1..] == PageQuery(page, pageSize)
  {
    var u := url + [Separator(url)] + PageQuery(page, pageSize);
    assert u[..|url|] == url && u[|url| + 1..] == PageQuery(page, pageSize);
    u
  }

  predicate HasPrefix(s: string, prefix: string) {
    |prefix| <= |s| && s[..|prefix|] == prefix
  }

  /** A query field `name=<int>` for the given name. */
  function Field(name: string, n: int): string {
    name + "=" + Text.IntToString(n)
  }

  /** The integer in a query field `name=<int>`, if the field has that form. */
  function ReadField(field: string, name: string): Option<int> {
    if HasPrefix(field, name + "=") then Text.ParseInt(field[|name| + 1..]) else None
  }

  lemma FieldReadsBack(name: string, n: int)
    ensures ReadField(Field(name, n), name) == Some(n)
  {
    assert Field(name, n)[..|name| + 1] == name + "=";
    assert Field(name, n)[|name| + 1..] == Text.IntToString(n);
    Text.ParseIntToString(n);
  }

  /** Reads the query the hook appends: "page=<int>&page_size=<int>". */
  function ReadPageQuery(query: string): Option<(int, int)> {
    var fields := Text.Split(query, '&');
    if |fields| == 2 then
      match (ReadField(fields[0], "page"), ReadField(fields[1], "page_size"))
      case (Some(p), Some(s)) => Some((p, s))
      case _ => None
    else None
  }

  /** The query the hook appends to the base URL. */
  function PageQuery(page: int, pageSize: int): string {
    "page=" + Text.IntToString(page) + "&page_size=" + Text.IntToString(pageSize)
  }

  lemma NoAmpersandInField(name: string, n: int)
    requires '&' !in name
    ensures '&' !in Field(name, n)
  {
    var t := Text.IntToString(n);
    assert forall i :: 0 <= i < |t| ==> t[i] != '&';
    assert Field(name, n) == name + "=" + t;
  }

  /** The query splits at its one '&' into the two fields. */
  lemma PageQueryFields(page: int, pageSize: int)
    ensures Text.Split(PageQuery(page, pageSize), '&') == [Field("page", page), Field("page_size", pageSize)]
  {
    var f0, f1 := Field("page", page), Field("page_size", pageSize);
    assert PageQuery(page, pageSize) == Text.Join([f0, f1], '&');
    NoAmpersandInField("page", page);
    NoAmpersandInField("page_size", pageSize);
    Text.SplitJoin([f0, f1], '&');
  }

  /** The page and the page size read back from the query unchanged. */
  lemma PageQueryReadsBack(page: int, pageSize: int)
    ensures ReadPageQuery(PageQuery(page, pageSize)) == Some((page, pageSize))
  {
    PageQueryFields(page, pageSize);
    FieldReadsBack("page", page);
    FieldReadsBack("page_size", pageSize);
  }

  /**
   * The URL is the base URL, then '&' when the base already has a query
   * ('?' otherwise), then a query from which the page and the page size
   * read back unchanged.
   */
  lemma PageUrlReadsBack(url: string, page: int, pageSize: int)
    ensures var u := PageUrl(url, page, pageSize);
      && |u| > |url| && u[..|url|] == url
      && u[|url|] == (if '?' in url then '&' else '?')
      && ReadPageQuery(u[|url| + 1..]) == Some((page, pageSize))
  {
    var u := PageUrl(url, page, pageSize);
    var q := PageQuery(page, pageSize);
    assert u == (url + [Separator(url)]) + q;
    assert u[..|url|] == url;
    assert u[|url| + 1..] == q;
    PageQueryReadsBack(page, pageSize);
  }

  // ---------------------------------------------------------------------
  // The page count

  /**
   * The JSON body of a page, its list of items already picked out. The
   * numeric fields read 0 when absent, which is how `||` treats them.
   */
  datatype PageBody<T> = PageBody(items: seq<T>, total_pages: int, totalPages: int, total: int)

  /** `Math.ceil(n / d)` for a positive divisor. */
  function CeilDiv(n: int, d: int): (q: int)
    requires d > 0
    ensures (q - 1) * d < n <= q * d
  {
    -((-n) / d)
  }

  /** `result.total_pages || result.totalPages || Math.ceil((result.total || items.length) / pageSize)`. */
  function PageCount<T>(body: PageBody<T>, pageSize: int): (count: int)
    requires pageSize > 0
    ensures body.total_pages != 0 ==> count == body.total_pages
    ensures body.total_pages == 0 && body.totalPages != 0 ==> count == body.totalPages
    ensures body.total_pages == 0 && body.totalPages == 0 ==>
      var n := if body.total != 0 then body.total else |body.items|;
      (count - 1) * pageSize < n <= count * pageSize
  {
    if body.total_pages != 0 then body.total_pages
    else if body.totalPages != 0 then body.totalPages
    else CeilDiv(if body.total != 0 then body.total else |body.items|, pageSize)
  }

  /** Without a page count, the items fill the counted pages with none to spare. */
  lemma PageCountFromItems<T>(body: PageBody<T>, pageSize: int)
    requires pageSize > 0
    requires body.total_pages == 0 && body.totalPages == 0 && body.total == 0
    ensures PageCount(body, pageSize) >= 0
    ensures |body.items| == 0 <==> PageCount(body, pageSize) == 0
    ensures |body.items| <= PageCount(body, pageSize) * pageSize < |body.items| + pageSize
  {
  }

  /** What the hook reports to its `onSuccess` or `onError` option. */
  datatype Notice<T> = Success(items: seq<T>) | Failure(message: string)

  // ---------------------------------------------------------------------
  // The hook

  class PaginatedQuery<T> {
    const url: string
    const pageSize: int
    var data: seq<T>
    var page: int
    var totalPages: int
    var isLoading: bool
    var error: Option<string>

    constructor (url: string, pageSize: int := DefaultPageSize, initialPage: int := DefaultInitialPage)
      ensures this.url == url && this.pageSize == pageSize
      ensures page == initialPage && totalPages == 1 && data == []
      ensures !isLoading && error == None
    {
      this.url := url;
      this.pageSize := pageSize;
      data := [];
      page := initialPage;
      totalPages := 1;
      isLoading := false;
      error := None;
    }

    /** The cursor is on an existing page. */
    predicate InRange()
      reads this
    {
      1 <= page <= totalPages
    }

    /** On an existing page, there is a next one unless this is the last. */
    predicate HasNextPage(): (b: bool)
      reads this
      ensures InRange() ==> (b <==> page != totalPages)
      ensures InRange() && totalPages == 1 ==> !b
    {
      page < totalPages
    }

    /** On an existing page, there is a previous one unless this is the first. */
    predicate HasPrevPage(): (b: bool)
      reads this
      ensures InRange() ==> (b <==> page != 1)
      ensures InRange() && totalPages == 1 ==> !b
    {
      page > 1
    }

    /** The URL the next fetch requests. */
    function RequestUrl(): string
      reads this
    {
      PageUrl(url, page, pageSize)
    }

    /** Advances exactly one page when there is a next page; otherwise nothing changes. */
    method NextPage()
      modifies this`page
      ensures page == if old(HasNextPage()) then old(page) + 1 else old(page)
      ensures old(InRange()) ==> InRange()
    {
      if page < totalPages {
        page := page + 1;
      }
    }

    /** Goes back exactly one page when there is a previous page; otherwise nothing changes. */
    method PrevPage()
      modifies this`page
      ensures page == if old(HasPrevPage()) then old(page) - 1 else old(page)
      ensures old(InRange()) ==> InRange()
    {
      if page > 1 {
        page := page - 1;
      }
    }

    /** Jumps to `newPage` when it is an existing page; otherwise nothing changes. */
    method GoToPage(newPage: int)
      modifies this`page
      ensures page == if 1 <= newPage <= totalPages then newPage else old(page)
      ensures 1 <= newPage <= totalPages ==> InRange()
      ensures old(InRange()) ==> InRange()
    {
      if newPage >= 1 && newPage <= totalPages {
        page := newPage;
      }
    }

    /**
     * One fetch of the current page. A good response replaces the items and
     * the page count; anything else records the error and keeps both; the
     * loading flag is down afterwards whatever happened.
     */
    method FetchData(outcome: Http.Outcome<PageBody<T>>) returns (requested: string, notice: Notice<T>)
      requires pageSize > 0
      requires !outcome.Aborted? // this hook never aborts its requests
      modifies this`data, this`totalPages, this`isLoading, this`error
      ensures requested == old(RequestUrl())
      ensures !isLoading
      ensures outcome.Ok? ==>
        && data == outcome.body.items
        && totalPages == PageCount(outcome.body, pageSize)
        && error == None
        && notice == Success(outcome.body.items)
      ensures !outcome.Ok? ==>
        && data == old(data) && totalPages == old(totalPages)
        && error.Some? && notice == Failure(error.value)
      ensures outcome.HttpError? ==> error == Some(Http.HttpErrorMessage(outcome.status))
      ensures outcome.Thrown? ==> error == Some(Http.ThrownMessage(outcome.message))
    {
      isLoading := true;
      error := None;
      requested := PageUrl(url, page, pageSize);
      match outcome {
        case Ok(body) =>
          var total := PageCount(body, pageSize);
          data := body.items;
          totalPages := total;
          notice := Success(body.items);
        case HttpError(status) =>
          var message := Http.HttpErrorMessage(status);
          error := Some(message);
          notice := Failure(message);
        case Thrown(message) =>
          var m := Http.ThrownMessage(message);
          error := Some(m);
          notice := Failure(m);
      }
      isLoading := false;
    }
  }
}
