/**
 * The page rows `saveFlipbook` inserts for a saved flipbook: one row per page,
 * in page order, with the defaulting rules of the insert. The remote calls
 * around it are not part of this model.
 */
module FlipbookStorage {
  import opened Optional
  import opened FlipbookPages

  /** A page handed to `saveFlipbook`; every field but the image may be absent. */
  datatype PageInput = PageInput(
    imageUrl: string,
    order: Option<int>,
    sourceFileName: Option<string>,
    sourceType: Option<string>,
    pageNumber: Option<int>)

  /** A row of the `pages` table as inserted (the store assigns id and timestamps). */
  datatype PageRow = PageRow(
    flipbookId: string,
    pageOrder: int,
    imageUrl: string,
    sourceFileName: Option<string>,
    sourceType: string,
    pageNumber: int)

  const DefaultSourceType: string := "image"

  /** `x ?? d`: only an absent value is replaced. */
  function Nullish<T>(x: Option<T>, d: T): (r: T)
    ensures x.Some? ==> r == x.value
    ensures x.None? ==> r == d
  {
    match x
    case Some(v) => v
    case None => d
  }

  /** JavaScript truthiness of an optional string: present and non-empty. */
  predicate TruthyString(x: Option<string>) { x.Some? && x.value != "" }

  /** JavaScript truthiness of an optional integer: present and non-zero. */
  predicate TruthyInt(x: Option<int>) { x.Some? && x.value != 0 }

  /** The row for the page at `index` of the saved list. */
  function ToRow(flipbookId: string, page: PageInput, index: nat): (row: PageRow)
    ensures row.flipbookId == flipbookId && row.imageUrl == page.imageUrl
    ensures row.pageOrder == if page.order.Some? then page.order.value else index
    ensures row.sourceFileName == if TruthyString(page.sourceFileName) then page.sourceFileName else None
    ensures row.sourceType == if TruthyString(page.sourceType) then page.sourceType.value else DefaultSourceType
    ensures row.pageNumber == if TruthyInt(page.pageNumber) then page.pageNumber.value else index + 1
    ensures row.sourceType != ""
    ensures row.pageNumber != 0
  {
    PageRow(
      flipbookId,
      Nullish(page.order, index as int),
      page.imageUrl,
      if TruthyString(page.sourceFileName) then page.sourceFileName else None,
      if TruthyString(page.sourceType) then page.sourceType.value else DefaultSourceType,
      if TruthyInt(page.pageNumber) then page.pageNumber.value else index + 1)
  }

  /** `pages.map((page, index) => …)`: one row per page, in the same order. */
  function PageRows(flipbookId: string, pages: seq<PageInput>): (rows: seq<PageRow>)
    ensures |rows| == |pages|
    ensures forall i :: 0 <= i < |pages| ==> rows[i] == ToRow(flipbookId, pages[i], i)
  {
    seq(|pages|, i requires 0 <= i < |pages| => ToRow(flipbookId, pages[i], i))
  }

  /** The insert `saveFlipbook` issues: none for an empty list, else every row at once. */
  function PageInsert(flipbookId: string, pages: seq<PageInput>): (insert: Option<seq<PageRow>>)
    ensures insert.None? <==> pages == []
    ensures insert.Some? ==> |insert.value| == |pages| > 0 && insert.value == PageRows(flipbookId, pages)
  {
    if |pages| > 0 then Some(PageRows(flipbookId, pages)) else None
  }

  /**
   * What a caller passing the editor's pages to `saveFlipbook` would hand
   * over: image and order, with the optional fields left undefined. Nothing
   * in the program makes this call; `saveFlipbook` is only exported.
   */
  function SaveInput(pages: seq<Page>): (inputs: seq<PageInput>)
    ensures |inputs| == |pages|
    ensures forall i :: 0 <= i < |pages| ==>
      inputs[i] == PageInput(pages[i].imageUrl, Some(pages[i].order), None, None, None)
  {
    seq(|pages|, i requires 0 <= i < |pages| =>
      PageInput(pages[i].imageUrl, Some(pages[i].order), None, None, None))
  }

  /** Rows whose `page_order` values are strictly increasing, so ordering by them keeps the rows' order. */
  predicate StrictlyOrdered(rows: seq<PageRow>) {
    forall i, j :: 0 <= i < j < |rows| ==> rows[i].pageOrder < rows[j].pageOrder
  }

  /**
   * If the session's page list were saved through `SaveInput`: because its
   * order is dense, each row's `page_order` would be its position and
   * `page_number` the position plus one, the images would come out in the
   * editor's order, and a load ordered by `page_order` would give the rows
   * back in that order.
   */
  lemma SessionRows(flipbookId: string, pages: seq<Page>)
    requires Dense(pages)
    ensures var rows := PageRows(flipbookId, SaveInput(pages));
      |rows| == |pages| && StrictlyOrdered(rows) &&
      forall i :: 0 <= i < |pages| ==>
        rows[i] == PageRow(flipbookId, i, pages[i].imageUrl, None, DefaultSourceType, i + 1)
  {
  }

  /**
   * `??` and `||` differ on zero: an explicit order of 0 is kept, while a
   * page number of 0 falls back to the position plus one, and an empty file
   * name and source type fall back to null and "image".
   */
  lemma ZeroAndEmptyDefaults(flipbookId: string, url: string, index: nat)
    ensures var row := ToRow(flipbookId, PageInput(url, Some(0), Some(""), Some(""), Some(0)), index);
      row.pageOrder == 0 && row.pageNumber == index + 1 &&
      row.sourceFileName == None && row.sourceType == DefaultSourceType
  {
  }
}
