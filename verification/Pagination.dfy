// Listing the sessions page by page (internal/core/sessions_repository.go:50-97).
module Pagination {
  import opened Common
  import opened Float64
  import IdPartition
  import ImagePaths
  import ImageObjects

  const PAGE_DEFAULT := 1
  const PER_PAGE_DEFAULT := 50

  /** The columns a listing needs: the identity, the stored image name and the printed time of last change. */
  datatype Listing = Listing(id: GoInt, imageFilename: Option<string>, stamp: string)

  datatype Stream = Stream(listing: Listing, imageURL: string)

  datatype OnlineStreams = OnlineStreams(streams: seq<Stream>, totalPages: int)

  datatype ListError = QueryFailed | NegativeLimit | NegativeOffset | BadImageId

  /** Two's-complement wrap-around of a 64-bit product or difference. */
  function Wrap(x: int): GoInt { (x + 0x8000_0000_0000_0000) % 0x1_0000_0000_0000_0000 - 0x8000_0000_0000_0000 }

  function Offset(page: GoInt, perPage: GoInt): GoInt { Wrap(Wrap(page - 1) * perPage) }

  function Least(a: int, b: int): int { if a <= b then a else b }

  /** LIMIT and OFFSET on an ordered table; the database refuses negative ones. */
  function Window(rows: seq<Listing>, limit: int, offset: int): (r: Result<seq<Listing>, ListError>)
    ensures r.Ok? ==> |r.value| <= limit
  {
    if limit < 0 then Err(NegativeLimit)
    else if offset < 0 then Err(NegativeOffset)
    else Ok(rows[Least(offset, |rows|)..Least(offset + limit, |rows|)])
  }

  function Page(rows: seq<Listing>, page: GoInt, perPage: GoInt): Result<seq<Listing>, ListError> {
    Window(rows, perPage, Offset(page, perPage))
  }

  function Defaulted(x: GoInt, default: GoInt): GoInt { if x == 0 then default else x }

  /** Rounding, for the two operands and for their quotient. */
  ghost predicate Divided(total: nat, perPage: GoInt, dividend: real, divisor: real, quotient: real) {
    && Nearest(dividend, total as real) && Nearest(divisor, perPage as real)
    && divisor != 0.0 && Nearest(quotient, dividend / divisor)
  }

  /** The number of pages shown is the number of pages there are. */
  lemma TotalPagesExact(total: nat, perPage: GoInt, dividend: real, divisor: real, quotient: real)
    requires total < LIMIT && 1 <= perPage < LIMIT && Divided(total, perPage, dividend, divisor, quotient)
    ensures Ceil(quotient) == CeilDiv(total, perPage)
  {
    WholeIsExact(dividend, total);
    WholeIsExact(divisor, perPage);
    CeilingIsExact(total, perPage, quotient);
  }

  /** Such results exist for every total and page size below 2^53. */
  lemma DivisionHasResults(total: nat, perPage: GoInt) returns (dividend: real, divisor: real, quotient: real)
    requires total < LIMIT && 1 <= perPage < LIMIT
    ensures Divided(total, perPage, dividend, divisor, quotient)
  {
    dividend, divisor := total as real, perPage as real;
    WholeIsRepresentable(total);
    WholeIsRepresentable(perPage);
    quotient := NearestExists(total, perPage);
  }

  function Pages(rows: seq<Listing>, perPage: GoInt, count: GoInt): seq<Listing>
    requires count >= 0
  {
    if count == 0 then []
    else Pages(rows, perPage, count - 1) +
         (match Page(rows, count, perPage) case Ok(window) => window case Err(_) => [])
  }

  /** A listing asked for page 0 and size 0 is the first 50 rows. Any other number stands for itself. */
  lemma FirstFifty(rows: seq<Listing>, page: GoInt, perPage: GoInt)
    ensures Page(rows, Defaulted(0, PAGE_DEFAULT), Defaulted(0, PER_PAGE_DEFAULT)) ==
            Ok(if |rows| <= 50 then rows else rows[..50])
    ensures page != 0 ==> Defaulted(page, PAGE_DEFAULT) == page
    ensures perPage != 0 ==> Defaulted(perPage, PER_PAGE_DEFAULT) == perPage
  {
    assert rows[0..|rows|] == rows;
  }

  /** A listing is refused iff the page size, or the offset as 64 bits make it, is negative. */
  lemma RefusedIff(rows: seq<Listing>, page: GoInt, perPage: GoInt)
    ensures Page(rows, page, perPage) == Err(NegativeLimit) <==> perPage < 0
    ensures Page(rows, page, perPage) == Err(NegativeOffset) <==> perPage >= 0 && Offset(page, perPage) < 0
    ensures Page(rows, page, perPage).Err? ==> perPage < 0 || Offset(page, perPage) < 0
  {
  }

  lemma OffsetPlain(page: GoInt, perPage: GoInt)
    requires 1 <= page && 0 <= perPage && 0 <= (page - 1) * perPage < 0x8000_0000_0000_0000
    ensures Offset(page, perPage) == (page - 1) * perPage
  {
  }

  lemma CoveredSoFar(count: nat, total: nat, perPage: nat)
    requires perPage >= 1 && count < CeilDiv(total, perPage)
    ensures 0 <= count * perPage < total && count < total
  {
    CeilDivMeaning(total, perPage);
    var q := total / perPage;
    assert q * perPage + total % perPage == total;
    if total % perPage == 0 {
      Monotone(perPage, count, q - 1);
      assert perPage * (q - 1) == q * perPage - perPage;
    } else {
      Monotone(perPage, count, q);
    }
    Monotone(count, 1, perPage);
  }

  lemma CoveredAtEnd(total: nat, perPage: nat)
    requires perPage >= 1
    ensures CeilDiv(total, perPage) * perPage >= total
  {
    CeilDivMeaning(total, perPage);
    var q := total / perPage;
    assert q * perPage + total % perPage == total;
    assert (q + 1) * perPage == q * perPage + perPage;
  }

  /** One page is the stretch of rows at its offset. */
  lemma PageIsStretch(rows: seq<Listing>, perPage: GoInt, page: GoInt)
    requires |rows| < LIMIT && 1 <= perPage < LIMIT && 1 <= page <= CeilDiv(|rows|, perPage)
    ensures 0 <= (page - 1) * perPage < |rows| && page * perPage == (page - 1) * perPage + perPage
    ensures Page(rows, page, perPage) == Ok(rows[(page - 1) * perPage..Least(page * perPage, |rows|)])
  {
    CoveredSoFar(page - 1, |rows|, perPage);
    OffsetPlain(page, perPage);
  }

  lemma Adjacent(rows: seq<Listing>, from: nat, upto: nat)
    requires from <= upto <= |rows|
    ensures rows[..from] + rows[from..upto] == rows[..upto]
  {
  }

  /** The first pages hold the first rows, each once and in order. */
  lemma {:induction false} PagesPrefix(rows: seq<Listing>, perPage: GoInt, count: GoInt)
    requires |rows| < LIMIT && 1 <= perPage < LIMIT && 0 <= count <= CeilDiv(|rows|, perPage)
    ensures Pages(rows, perPage, count) == rows[..Least(count * perPage, |rows|)]
  {
    if count > 0 {
      PagesPrefix(rows, perPage, count - 1);
      PageIsStretch(rows, perPage, count);
      Adjacent(rows, (count - 1) * perPage, Least(count * perPage, |rows|));
    }
  }

  lemma PageHasARow(rows: seq<Listing>, perPage: GoInt, page: GoInt)
    requires |rows| < LIMIT && 1 <= perPage < LIMIT && 1 <= page <= CeilDiv(|rows|, perPage)
    ensures Page(rows, page, perPage).Ok? && Page(rows, page, perPage).value != []
  {
    CoveredSoFar(page - 1, |rows|, perPage);
    OffsetPlain(page, perPage);
  }

  lemma FewPages(total: nat, perPage: nat)
    requires perPage >= 1
    ensures CeilDiv(total, perPage) <= total
  {
    if CeilDiv(total, perPage) > 0 { CoveredSoFar(CeilDiv(total, perPage) - 1, total, perPage); }
  }

  lemma AllPages(rows: seq<Listing>, perPage: GoInt)
    requires |rows| < LIMIT && 1 <= perPage < LIMIT
    ensures CeilDiv(|rows|, perPage) < LIMIT && Pages(rows, perPage, CeilDiv(|rows|, perPage)) == rows
  {
    FewPages(|rows|, perPage);
    PagesPrefix(rows, perPage, CeilDiv(|rows|, perPage));
    CoveredAtEnd(|rows|, perPage);
    assert rows[..|rows|] == rows;
  }

  /** Pages 1 to the number of pages shown, put together, are the whole table: no row is missed or repeated,
      and every one of them has a row. */
  lemma PagesPartitionTheTable(rows: seq<Listing>, perPage: GoInt, dividend: real, divisor: real, quotient: real)
    requires |rows| < LIMIT && 1 <= perPage < LIMIT && Divided(|rows|, perPage, dividend, divisor, quotient)
    ensures var shown := Ceil(quotient);
      && 0 <= shown < LIMIT && Pages(rows, perPage, shown) == rows
      && (forall page: GoInt :: 1 <= page <= shown ==>
            Page(rows, page, perPage).Ok? && Page(rows, page, perPage).value != [])
  {
    TotalPagesExact(|rows|, perPage, dividend, divisor, quotient);
    AllPages(rows, perPage);
    forall page: GoInt | 1 <= page <= CeilDiv(|rows|, perPage)
      ensures Page(rows, page, perPage).Ok? && Page(rows, page, perPage).value != []
    {
      PageHasARow(rows, perPage, page);
    }
  }

  /** A page shows a row iff its 64-bit offset falls inside the table. */
  lemma PageShowsARow(rows: seq<Listing>, page: GoInt, perPage: GoInt)
    requires 1 <= perPage
    ensures (Page(rows, page, perPage).Ok? && Page(rows, page, perPage).value != [])
            <==> 0 <= Offset(page, perPage) < |rows|
  {
  }

  /** The rows a page is meant to show. */
  function PageRows(rows: seq<Listing>, page: GoInt, perPage: GoInt): seq<Listing>
    requires 1 <= page && 1 <= perPage
  {
    Monotone(perPage, 0, page - 1);
    rows[Least((page - 1) * perPage, |rows|)..Least((page - 1) * perPage + perPage, |rows|)]
  }

  /** Every page shows the rows it is meant to, iff its offset fits 64 bits or wraps around to one past the
      table. A table has fewer rows than 64 bits can count. */
  lemma RightPageIff(rows: seq<Listing>, page: GoInt, perPage: GoInt)
    requires 1 <= page && 1 <= perPage && |rows| < 0x8000_0000_0000_0000
    ensures Page(rows, page, perPage) == Ok(PageRows(rows, page, perPage))
            <==> (page - 1) * perPage < 0x8000_0000_0000_0000 || Offset(page, perPage) >= |rows|
  {
    Monotone(perPage, 0, page - 1);
    if (page - 1) * perPage < 0x8000_0000_0000_0000 {
      OffsetPlain(page, perPage);
    } else {
      PageShowsARow(rows, page, perPage);
      assert PageRows(rows, page, perPage) == [];
    }
  }

  /** So past the pages shown there is nothing, iff the offset fits or wraps around to one past the table. */
  lemma NothingAfterTheLastPage(rows: seq<Listing>, page: GoInt, perPage: GoInt)
    requires 1 <= perPage && page > CeilDiv(|rows|, perPage) && |rows| < 0x8000_0000_0000_0000
    ensures Page(rows, page, perPage) == Ok([])
            <==> (page - 1) * perPage < 0x8000_0000_0000_0000 || Offset(page, perPage) >= |rows|
  {
    CoveredAtEnd(|rows|, perPage);
    Monotone(perPage, CeilDiv(|rows|, perPage), page - 1);
    assert PageRows(rows, page, perPage) == [];
    RightPageIff(rows, page, perPage);
  }

  /** With an overflow, a page far past the end repeats the first one. */
  lemma HugePageRepeatsTheFirst(rows: seq<Listing>)
    requires rows != [] && |rows| < 0x1_0000_0000
    ensures CeilDiv(|rows|, 0x1_0000_0000) == 1
    ensures Page(rows, 0x1_0000_0001, 0x1_0000_0000) == Page(rows, 1, 0x1_0000_0000) == Ok(rows)
  {
    assert Offset(0x1_0000_0001, 0x1_0000_0000) == 0 == Offset(1, 0x1_0000_0000);
    assert rows[0..|rows|] == rows;
  }

  /** The address shown for a row. */
  function Shown(l: Listing): Stream
    requires l.id > 0
  {
    IdPartition.PartsFacts(l.id);
    Stream(l, ImagePaths.Address(ImageObjects.URL_HEAD, ImagePaths.PathIn(ImageObjects.STREAM_PREFIX,
      IdPartition.Parts(l.id), FilenameOf(l)), "?" + l.stamp))
  }

  function FilenameOf(l: Listing): string { match l.imageFilename case Some(name) => name case None => "" }

  /** Builds the row's image object and asks it for its address. */
  method ShowOne(l: Listing, root: string) returns (r: Result<Stream, ListError>)
    ensures r == if l.id > 0 then Ok(Shown(l)) else Err(BadImageId)
  {
    var session := new ImageObjects.Session(l.id, l.imageFilename, l.stamp);
    var img := new ImageObjects.StreamImage(session, root);
    var url := img.URL();
    assert l.id > 0 ==> ImageObjects.AnswersFor(img.idPartitions, l.id, l.id);
    r := if url.Err? then Err(BadImageId) else Ok(Stream(l, url.value));
  }

  /** Fills in the image address of every row found; a row without a positive ID fails the whole listing. */
  method ShowAll(window: seq<Listing>, root: string) returns (r: Result<seq<Stream>, ListError>)
    ensures r.Ok? <==> forall i :: 0 <= i < |window| ==> window[i].id > 0
    ensures r.Ok? ==> |r.value| == |window| && forall i :: 0 <= i < |window| ==> r.value[i] == Shown(window[i])
    ensures r.Err? ==> r.error == BadImageId
  {
    var streams: seq<Stream> := [];
    for i := 0 to |window|
      invariant |streams| == i
      invariant forall j :: 0 <= j < i ==> window[j].id > 0 && streams[j] == Shown(window[j])
    {
      var shown := ShowOne(window[i], root);
      if shown.Err? {
        return Err(shown.error);
      }
      streams := streams + [shown.value];
    }
    return Ok(streams);
  }

  /** One listing. The count and the ordered rows are the answers of two queries; the three reals are the
      results of the conversions and the division. */
  method GetAll(page: GoInt, perPage: GoInt, counted: Option<nat>, table: Option<seq<Listing>>, root: string,
                dividend: real, divisor: real, quotient: real)
    returns (r: Result<OnlineStreams, ListError>)
    requires counted.Some? ==>
      Divided(counted.value, Defaulted(perPage, PER_PAGE_DEFAULT), dividend, divisor, quotient)
    ensures counted.None? || table.None? ==> r == Err(QueryFailed)
    ensures counted.Some? && table.Some? ==>
      var size := Defaulted(perPage, PER_PAGE_DEFAULT);
      match Page(table.value, Defaulted(page, PAGE_DEFAULT), size)
      case Err(e) => r == Err(e)
      case Ok(window) =>
        && (r.Ok? <==> forall i :: 0 <= i < |window| ==> window[i].id > 0)
        && (r.Ok? ==>
              && |r.value.streams| == |window|
              && (forall i :: 0 <= i < |window| ==> r.value.streams[i] == Shown(window[i]))
              && r.value.totalPages == Ceil(quotient)
              && (counted.value < LIMIT && 1 <= size < LIMIT ==> r.value.totalPages == CeilDiv(counted.value, size)))
        && (r.Err? ==> r.error == BadImageId)
  {
    if counted.None? {
      return Err(QueryFailed);
    }
    var number, size := Defaulted(page, PAGE_DEFAULT), Defaulted(perPage, PER_PAGE_DEFAULT);
    var totalPages := Ceil(quotient);
    if counted.value < LIMIT && 1 <= size < LIMIT {
      TotalPagesExact(counted.value, size, dividend, divisor, quotient);
    }
    if table.None? {
      return Err(QueryFailed);
    }
    var found := Page(table.value, number, size);
    if found.Err? {
      return Err(found.error);
    }
    var streams := ShowAll(found.value, root);
    r := if streams.Err? then Err(streams.error) else Ok(OnlineStreams(streams.value, totalPages));
  }
}
