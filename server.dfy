/**
 * get_history_api: the read side. It reads a snapshot of the `history`
 * table (the recorder may be writing concurrently; each request sees one
 * committed state) and answers with one page of it, newest issue first, in
 * the upstream feed's response shape.
 */
module Server {
  import opened Wrappers
  import opened Python
  import opened TextOrder
  import opened History

  const DefaultPageNo: int := 1
  const DefaultPageSize: int := 20

  /**
   * `int(request.args.get('pageNo', 1))` and the same for `pageSize` with 20;
   * an argument is None when the query string lacks it. If either `int()`
   * raises, both fall back to 1 and 20.
   */
  function ResolvePaging(pageNoArg: Option<string>, pageSizeArg: Option<string>): (int, int)
  {
    var pageNo := if pageNoArg.None? then Some(DefaultPageNo) else ParseInt(pageNoArg.value);
    var pageSize := if pageSizeArg.None? then Some(DefaultPageSize) else ParseInt(pageSizeArg.value);
    if pageNo.Some? && pageSize.Some? then (pageNo.value, pageSize.value)
    else (DefaultPageNo, DefaultPageSize)
  }

  /** One row of `SELECT issue, number, color FROM history`. */
  datatype Row = Row(issue: string, number: int, color: Option<string>)

  /** The whole table as `ORDER BY issue DESC` returns it. */
  function SortedRows(table: map<string, Record>): (rows: seq<Row>)
    ensures |rows| == |table|
    ensures forall i :: 0 <= i < |rows| ==>
      rows[i].issue in table && table[rows[i].issue] == Record(rows[i].number, rows[i].color)
    ensures forall i, j :: 0 <= i < j < |rows| ==> Less(rows[j].issue, rows[i].issue)
  {
    var keys := SortedDesc(table.Keys);
    seq(|keys|, i requires 0 <= i < |keys| => Row(keys[i], table[keys[i]].number, table[keys[i]].color))
  }

  /** Every stored issue has a row of its own. */
  lemma RowOf(table: map<string, Record>, k: string) returns (i: nat)
    requires k in table
    ensures i < |SortedRows(table)| && SortedRows(table)[i].issue == k
  {
    var keys := SortedDesc(table.Keys);
    assert k in keys;
    i :| 0 <= i < |keys| && keys[i] == k;
  }

  /**
   * `LIMIT limit OFFSET offset` in SQLite: skip `offset` rows, then keep at
   * most `limit`. A negative offset counts as 0 and a negative limit as no
   * limit at all.
   */
  function Window<T>(rows: seq<T>, limit: int, offset: int): (w: seq<T>)
    ensures var skip := if offset < 0 then 0 else offset;
      var left := if skip < |rows| then |rows| - skip else 0;
      && |w| == (if 0 <= limit < left then limit else left)
      && forall i :: 0 <= i < |w| ==> w[i] == rows[skip + i]
  {
    var skip := if offset < 0 then 0 else if offset > |rows| then |rows| else offset;
    var rest := rows[skip..];
    if 0 <= limit < |rest| then rest[..limit] else rest
  }

  /** One entry of the response's `list`. */
  datatype Item = Item(issueNumber: string, number: string, color: Option<string>, premium: string)

  /** The dict built for each row: the number as text, twice. */
  function FormatRow(r: Row): Item
  {
    Item(r.issue, IntText(r.number), r.color, IntText(r.number))
  }

  /** The response's `list`: one entry per row, in the rows' order. */
  function Listing(rows: seq<Row>): seq<Item>
  {
    seq(|rows|, i requires 0 <= i < |rows| => FormatRow(rows[i]))
  }

  datatype Page = Page(list: seq<Item>, pageNo: int, pageSize: int, totalPage: int, totalCount: int)

  /** The JSON answer: `{"code": 0, "msg": "Success", "data": ...}` or `{"code": 500, "msg": "Server Error: ..."}`. */
  datatype Response = Success(data: Page) | ServerError(detail: string)
  {
    function Code(): int { if Success? then 0 else 500 }
    function Msg(): string { if Success? then "Success" else "Server Error: " + detail }
  }

  /** `str(e)` of the two exceptions the handler can meet. */
  const OverflowDetail: string := "Python int too large to convert to SQLite INTEGER"
  const ZeroDivisionDetail: string := "integer division or modulo by zero"

  /**
   * The answer for the resolved page number and size against the table
   * `table`: binding a LIMIT or OFFSET outside 64 bits raises OverflowError,
   * and a page size of 0 reaches `total_count // 0`; both are caught and
   * reported as a server error.
   */
  function Answer(table: map<string, Record>, pageNo: int, pageSize: int): Response
  {
    var offset := (pageNo - 1) * pageSize;
    if !InInt64(pageSize) || !InInt64(offset) then ServerError(OverflowDetail)
    else if pageSize == 0 then ServerError(ZeroDivisionDetail)
    else
      Success(Page(Listing(Window(SortedRows(table), pageSize, offset)), pageNo, pageSize, FloorDiv(|table|, pageSize) + 1, |table|))
  }

  /** The answer to a request with the query parameters `pageNoArg` and `pageSizeArg`. */
  function Respond(table: map<string, Record>, pageNoArg: Option<string>, pageSizeArg: Option<string>): Response
  {
    var (pageNo, pageSize) := ResolvePaging(pageNoArg, pageSizeArg);
    Answer(table, pageNo, pageSize)
  }

  /** get_history_api on a snapshot of the table, building the list row by row. */
  method GetHistory(table: map<string, Record>, pageNoArg: Option<string>, pageSizeArg: Option<string>)
    returns (response: Response)
    ensures response == Respond(table, pageNoArg, pageSizeArg)
  {
    var paging := ResolvePaging(pageNoArg, pageSizeArg);
    var pageNo, pageSize := paging.0, paging.1;
    response := Paginate(table, pageNo, pageSize);
  }

  /** The body of get_history_api once the page number and size are known. */
  method Paginate(table: map<string, Record>, pageNo: int, pageSize: int) returns (response: Response)
    ensures response == Answer(table, pageNo, pageSize)
  {
    var offset := (pageNo - 1) * pageSize;
    var totalCount := |table|;
    if !InInt64(pageSize) || !InInt64(offset) {
      return ServerError(OverflowDetail);
    }
    var rows := Window(SortedRows(table), pageSize, offset);
    var dataList := FormatRows(rows);
    if pageSize == 0 {
      return ServerError(ZeroDivisionDetail);
    }
    response := Success(Page(dataList, pageNo, pageSize, FloorDiv(totalCount, pageSize) + 1, totalCount));
  }

  /** The loop that turns each fetched row into its dict. */
  method FormatRows(rows: seq<Row>) returns (list: seq<Item>)
    ensures list == Listing(rows)
  {
    list := [];
    for i := 0 to |rows|
      invariant |list| == i
      invariant forall k :: 0 <= k < i ==> list[k] == FormatRow(rows[k])
    {
      list := list + [FormatRow(rows[i])];
    }
  }

  // ---------------------------------------------------------------------------
  // Paging parameters
  // ---------------------------------------------------------------------------

  /**
   * Absent parameters default to page 1 of 20; present ones are read as
   * written, unless one has more than 4300 digits, which `int()` refuses, so
   * that both fall back to the defaults.
   */
  lemma PagingRoundTrip(pageNo: int, pageSize: int)
    ensures ResolvePaging(None, None) == (1, 20)
    ensures ResolvePaging(Some(IntText(pageNo)), None) == if FitsStrDigits(pageNo) then (pageNo, 20) else (1, 20)
    ensures ResolvePaging(None, Some(IntText(pageSize))) == if FitsStrDigits(pageSize) then (1, pageSize) else (1, 20)
    ensures ResolvePaging(Some(IntText(pageNo)), Some(IntText(pageSize))) ==
      if FitsStrDigits(pageNo) && FitsStrDigits(pageSize) then (pageNo, pageSize) else (1, 20)
  {
    ParseIntText(pageNo);
    ParseIntText(pageSize);
  }

  /** One parameter that is not an int resets both, even a valid other one. */
  lemma PagingFallback(pageNoArg: Option<string>, pageSizeArg: Option<string>)
    requires (pageNoArg.Some? && ParseInt(pageNoArg.value).None?)
          || (pageSizeArg.Some? && ParseInt(pageSizeArg.value).None?)
    ensures ResolvePaging(pageNoArg, pageSizeArg) == (1, 20)
  {
  }

  // ---------------------------------------------------------------------------
  // The answer
  // ---------------------------------------------------------------------------

  /**
   * The answer succeeds exactly when the page size is non-zero and both it
   * and the offset fit a SQLite INTEGER; a success has code 0 and "Success",
   * echoes the resolved page number and size, counts the whole table and has
   * `totalPage = totalCount // pageSize + 1`.
   */
  lemma ResponseShape(table: map<string, Record>, pageNoArg: Option<string>, pageSizeArg: Option<string>)
    ensures var (pageNo, pageSize) := ResolvePaging(pageNoArg, pageSizeArg);
      var r := Respond(table, pageNoArg, pageSizeArg);
      && (r.Success? <==> pageSize != 0 && InInt64(pageSize) && InInt64((pageNo - 1) * pageSize))
      && (r.Success? ==> r.Code() == 0 && r.Msg() == "Success"
                         && r.data.pageNo == pageNo && r.data.pageSize == pageSize
                         && r.data.totalCount == |table|
                         && r.data.totalPage == FloorDiv(|table|, pageSize) + 1)
      && (r.ServerError? ==> r.Code() == 500 && r.Msg() == "Server Error: " + r.detail)
  {
  }

  /**
   * A query that spells out both numbers gets the answer for those numbers,
   * or for page 1 of 20 when one of them is too long for `int()`.
   */
  lemma RespondIsAnswer(table: map<string, Record>, pageNo: int, pageSize: int)
    ensures Respond(table, Some(IntText(pageNo)), Some(IntText(pageSize))) ==
      if FitsStrDigits(pageNo) && FitsStrDigits(pageSize) then Answer(table, pageNo, pageSize)
      else Answer(table, 1, 20)
  {
    PagingRoundTrip(pageNo, pageSize);
  }

  /**
   * `pageSize=0` is answered with code 500 and the ZeroDivisionError text,
   * whatever the page number, since the offset is then 0; only a page number
   * too long for `int()` resets the query to page 1 of 20.
   */
  lemma ZeroPageSizeIsServerError(table: map<string, Record>, pageNo: int)
    ensures var r := Respond(table, Some(IntText(pageNo)), Some("0"));
      if FitsStrDigits(pageNo) then
        r == ServerError(ZeroDivisionDetail) && r.Code() == 500
        && r.Msg() == "Server Error: " + ZeroDivisionDetail
      else r == Answer(table, 1, 20)
  {
    assert IntText(0) == "0";
    RespondIsAnswer(table, pageNo, 0);
    assert FitsStrDigits(0);
    assert Answer(table, pageNo, 0) == ServerError(ZeroDivisionDetail);
  }

  /** The total count is the table's size whatever page is asked for. */
  lemma TotalCountIndependentOfPage(table: map<string, Record>,
                                    a: Option<string>, b: Option<string>, c: Option<string>, d: Option<string>)
    requires Respond(table, a, b).Success? && Respond(table, c, d).Success?
    ensures Respond(table, a, b).data.totalCount == Respond(table, c, d).data.totalCount == |table|
  {
  }

  /**
   * For a positive page number and page size the list is the sorted table
   * from the offset `(pageNo - 1) * pageSize` on, at most `pageSize`
   * entries, each formatted from its row.
   */
  lemma PageListing(table: map<string, Record>, pageNo: int, pageSize: int)
    requires 1 <= pageNo && 0 < pageSize
    requires Answer(table, pageNo, pageSize).Success?
    ensures var list := Answer(table, pageNo, pageSize).data.list;
      var offset := (pageNo - 1) * pageSize;
      var rows := SortedRows(table);
      && 0 <= offset
      && |list| <= pageSize
      && |list| == (if offset + pageSize <= |rows| then pageSize else if offset < |rows| then |rows| - offset else 0)
      && forall i :: 0 <= i < |list| ==> list[i] == FormatRow(rows[offset + i])
  {
    var offset := (pageNo - 1) * pageSize;
    OffsetNonNegative(pageNo, pageSize);
    assert Answer(table, pageNo, pageSize).data.list == Listing(Window(SortedRows(table), pageSize, offset));
    WindowListing(SortedRows(table), pageSize, offset);
  }

  /** The entries of a window of `rows` that starts at a non-negative offset. */
  lemma WindowListing(rows: seq<Row>, limit: int, offset: int)
    requires 0 <= offset && 0 < limit
    ensures var list := Listing(Window(rows, limit, offset));
      && |list| <= limit
      && |list| == (if offset + limit <= |rows| then limit else if offset < |rows| then |rows| - offset else 0)
      && forall i :: 0 <= i < |list| ==> list[i] == FormatRow(rows[offset + i])
  {
  }

  /**
   * Each entry carries its row's issue and color, and its number, which a
   * SQLite INTEGER keeps within 64 bits, as text that reads back as the number.
   */
  lemma FormatRowFaithful(r: Row)
    requires InInt64(r.number)
    ensures var item := FormatRow(r);
      item.issueNumber == r.issue && item.color == r.color
      && ParseInt(item.number) == Some(r.number) && item.premium == item.number
  {
    Int64FitsStrDigits(r.number);
    ParseIntText(r.number);
  }

  /**
   * Page 1 of size k holds the k greatest issues, newest first: every stored
   * issue is either listed or sorts before all the listed ones.
   */
  lemma FirstPageIsNewest(table: map<string, Record>, k: int)
    requires 0 < k <= MaxInt64
    ensures var r := Answer(table, 1, k);
      && r.Success?
      && |r.data.list| == (if k < |table| then k else |table|)
      && (forall i, j :: 0 <= i < j < |r.data.list| ==> Less(r.data.list[j].issueNumber, r.data.list[i].issueNumber))
      && (forall i :: 0 <= i < |r.data.list| ==> r.data.list[i].issueNumber in table)
      && (forall key :: key in table ==>
            (exists i :: 0 <= i < |r.data.list| && r.data.list[i].issueNumber == key)
            || (forall i :: 0 <= i < |r.data.list| ==> Less(key, r.data.list[i].issueNumber)))
  {
    PageListing(table, 1, k);
    var rows := SortedRows(table);
    var list := Answer(table, 1, k).data.list;
    assert forall i :: 0 <= i < |list| ==> list[i].issueNumber == rows[i].issue;
    NewestPrefix(table, list);
  }

  /** Entries carrying the issues of a prefix of the sorted rows are the newest issues, in order. */
  lemma NewestPrefix(table: map<string, Record>, list: seq<Item>)
    requires |list| <= |table|
    requires forall i :: 0 <= i < |list| ==> list[i].issueNumber == SortedRows(table)[i].issue
    ensures forall i, j :: 0 <= i < j < |list| ==> Less(list[j].issueNumber, list[i].issueNumber)
    ensures forall i :: 0 <= i < |list| ==> list[i].issueNumber in table
    ensures forall key :: key in table ==>
      (exists i :: 0 <= i < |list| && list[i].issueNumber == key)
      || (forall i :: 0 <= i < |list| ==> Less(key, list[i].issueNumber))
  {
    var rows := SortedRows(table);
    forall key | key in table
      ensures (exists i :: 0 <= i < |list| && list[i].issueNumber == key)
           || (forall i :: 0 <= i < |list| ==> Less(key, list[i].issueNumber))
    {
      var j := RowOf(table, key);
      if j < |list| {
        assert list[j].issueNumber == key;
      } else {
        forall i | 0 <= i < |list| ensures Less(key, list[i].issueNumber) {
          assert Less(rows[j].issue, rows[i].issue);
        }
      }
    }
  }

  // ---------------------------------------------------------------------------
  // totalPage
  // ---------------------------------------------------------------------------

  /** `totalCount = 1001, pageSize = 20` gives 51 pages, and so does the exact multiple 1000. */
  lemma TotalPageExamples()
    ensures FloorDiv(1001, 20) + 1 == 51
    ensures FloorDiv(1000, 20) + 1 == 51
    ensures FloorDiv(999, 20) + 1 == 50
  {
  }

  /**
   * With a positive page size every row is on some page no later than
   * `totalPage`: the row at sorted position j is entry `j % pageSize` of
   * page `j / pageSize + 1`.
   */
  lemma EveryRowOnAPage(table: map<string, Record>, pageSize: int, j: int)
    requires 0 < pageSize <= MaxInt64 && |table| <= MaxInt64
    requires 0 <= j < |table|
    ensures var pageNo := j / pageSize + 1;
      var r := Answer(table, pageNo, pageSize);
      && r.Success?
      && pageNo <= r.data.totalPage
      && j % pageSize < |r.data.list|
      && r.data.list[j % pageSize] == FormatRow(SortedRows(table)[j])
  {
    var pageNo := j / pageSize + 1;
    var slot := j % pageSize;
    var offset := (pageNo - 1) * pageSize;
    PageOfRow(j, pageSize, |table|);
    assert 0 <= offset <= j && j == offset + slot;
    assert InInt64(offset);
    var r := Answer(table, pageNo, pageSize);
    assert r.Success?;
    PageListing(table, pageNo, pageSize);
    assert slot < |r.data.list|;
    assert r.data.list[slot] == FormatRow(SortedRows(table)[offset + slot]);
  }

  /** The arithmetic of EveryRowOnAPage: page `j / size + 1` starts at or before `j`, and within `total // size + 1`. */
  lemma PageOfRow(j: int, size: int, total: int)
    requires 0 < size && 0 <= j < total
    ensures var offset := (j / size + 1 - 1) * size;
      && 0 <= offset <= j && j == offset + j % size && j % size < size
      && j / size <= FloorDiv(total, size)
  {
    var q := j / size;
    var t := FloorDiv(total, size);
    assert (q + 1 - 1) * size == q * size;
    assert size * q <= j < total < size * t + size;
    assert q <= t by {
      if q > t {
        assert q >= t + 1;
        MulMonotone(size, t + 1, q);
      }
    }
  }

  lemma OffsetNonNegative(pageNo: int, pageSize: int)
    requires 1 <= pageNo && 0 < pageSize
    ensures 0 <= (pageNo - 1) * pageSize
  {
  }

  lemma MulMonotone(a: int, m: int, n: int)
    requires 0 < a && m <= n
    ensures a * m <= a * n
  {
    assert a * n - a * m == a * (n - m);
  }

  /**
   * When the row count is a multiple of a positive page size, `totalPage`
   * names a page past the data: it comes back empty.
   */
  lemma LastPageEmptyAtMultiple(table: map<string, Record>, pageSize: int)
    requires 0 < pageSize <= MaxInt64 && |table| <= MaxInt64
    requires |table| % pageSize == 0
    ensures var totalPage := FloorDiv(|table|, pageSize) + 1;
      var r := Answer(table, totalPage, pageSize);
      r.Success? && r.data.totalPage == totalPage && r.data.list == []
  {
    var totalPage := FloorDiv(|table|, pageSize) + 1;
    assert (totalPage - 1) * pageSize == |table|;
    assert Answer(table, totalPage, pageSize).Success?;
    PageListing(table, totalPage, pageSize);
  }
}
