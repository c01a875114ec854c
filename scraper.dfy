/**
 * The pagination controller of src/Fetch.py (`run_paginated_scraper`), the
 * page URLs it requests, and the empty-input guard of `save_to_csv`.
 *
 * The network is replaced by a finite page source: the response for page n
 * is `src[n - 1]`, where None stands for a failed request (or an empty
 * body); every page past the end of the source fails. The raw-snapshot
 * writes and the politeness delay have no effect on the result and are not
 * modelled.
 */
module Scraper {
  import opened Wrappers
  import opened Text
  import opened Listing

  type PageSource = seq<Option<Page>>

  // ---------------------------------------------------------------------
  // URLs
  // ---------------------------------------------------------------------

  /** Page 1 is the bare start URL; page n >= 2 appends "&page=n". */
  function PageUrl(startUrl: string, page: nat): string {
    if page > 1 then startUrl + "&page=" + NatToString(page) else startUrl
  }

  /** Different pages are requested under different URLs. */
  lemma PageUrlInjective(startUrl: string, m: nat, n: nat)
    requires m >= 1 && n >= 1
    ensures PageUrl(startUrl, m) == PageUrl(startUrl, n) ==> m == n
  {
    if PageUrl(startUrl, m) == PageUrl(startUrl, n) && m > 1 && n > 1 {
      var prefix := startUrl + "&page=";
      var a, b := NatToString(m), NatToString(n);
      assert PageUrl(startUrl, m)[|prefix|..] == a;
      assert PageUrl(startUrl, n)[|prefix|..] == b;
      NatToStringInjective(m, n);
    }
  }

  /** The URLs of pages 1..n, in request order. */
  function FetchedUrls(startUrl: string, n: nat): (urls: seq<string>)
    ensures |urls| == n
  {
    seq(n, i requires 0 <= i < n => PageUrl(startUrl, i + 1))
  }

  /** One more request adds the next page's URL at the end. */
  lemma FetchedUrlsNext(startUrl: string, n: nat)
    ensures FetchedUrls(startUrl, n + 1) == FetchedUrls(startUrl, n) + [PageUrl(startUrl, n + 1)]
  {
  }

  // ---------------------------------------------------------------------
  // What the loop sees of each page
  // ---------------------------------------------------------------------

  /** Entry n of a page source, as raw pages or as parsed ones: the response to the
      request for page n, None past the end of the source. */
  function Fetch<T>(src: seq<Option<T>>, page: nat): (r: Option<T>)
    ensures r.Some? ==> 1 <= page <= |src|
  {
    if 1 <= page <= |src| then src[page - 1] else None
  }

  /** What `parse_search_page` hands back for one page: its records, or the exception
      raised while parsing them, and the page count of its summary. */
  datatype Parsed = Parsed(records: Result<seq<Product>, ParseError>, total: Option<nat>)

  function Digest(html: Page): Parsed {
    Parsed(ParseBlocks(html.blocks), TotalPages(html.pageTitle))
  }

  /** A page source as the loop sees it: None for a failed request, otherwise the parsed page. */
  type Outcomes = seq<Option<Parsed>>

  function Parse(src: PageSource): (ps: Outcomes)
    ensures |ps| == |src|
  {
    seq(|src|, i requires 0 <= i < |src| => if src[i].Some? then Some(Digest(src[i].value)) else None)
  }

  /** Requesting page n of the parsed source is fetching it and parsing it. */
  lemma FetchParsed(src: PageSource, page: nat)
    ensures Fetch(src, page).None? ==> Fetch(Parse(src), page).None?
    ensures Fetch(src, page).Some? ==> Fetch(Parse(src), page) == Some(Digest(Fetch(src, page).value))
  {
  }

  // ---------------------------------------------------------------------
  // The loop, as a recursive function of its state
  // ---------------------------------------------------------------------

  /** Why the loop stopped (the message it prints). */
  datatype StopReason = PageLimit | FetchFailed | NoResults | LastPage

  /** Pages are numbered from 1. */
  type PageNumber = n: nat | 1 <= n witness 1

  /** How a run ends: it returns the accumulated records, or an exception escapes from
      parsing page `page` and nothing is returned. */
  datatype Run =
    | Stopped(records: seq<Product>, reason: StopReason, page: PageNumber)
    | Raised(error: ParseError, page: PageNumber)

  predicate Limited(limit: int, page: nat) {
    limit > 0 && page > limit
  }

  /** `if parsed_total_pages and max_pages is None: max_pages = parsed_total_pages`. */
  function Discover(maxPages: Option<nat>, parsed: Option<nat>): Option<nat> {
    if parsed.Some? && parsed.value != 0 && maxPages.None? then parsed else maxPages
  }

  /** The rest of a run from the top of the loop with the given state. */
  function RunFrom(ps: Outcomes, limit: int, page: nat, maxPages: Option<nat>, acc: seq<Product>): Run
    requires page >= 1
    decreases |ps| + 1 - page
  {
    if Limited(limit, page) then Stopped(acc, PageLimit, page)
    else match Fetch(ps, page)
      case None => Stopped(acc, FetchFailed, page)
      case Some(parsed) =>
        if parsed.records.Err? then Raised(parsed.records.error, page)
        else
          var maxPages' := Discover(maxPages, parsed.total);
          if parsed.records.value == [] then Stopped(acc, NoResults, page)
          else if maxPages'.Some? && page >= maxPages'.value then
            Stopped(acc + parsed.records.value, LastPage, page)
          else RunFrom(ps, limit, page + 1, maxPages', acc + parsed.records.value)
  }

  /** A whole run: page 1, no page count known, nothing collected. */
  function Scrape(src: PageSource, limit: int): Run {
    RunFrom(Parse(src), limit, 1, None, [])
  }

  /** How many pages were requested. */
  function Requests(run: Run): nat {
    match run
    case Stopped(_, reason, page) => if reason == PageLimit then page - 1 else page
    case Raised(_, page) => page
  }

  /** How many pages had their records appended. */
  function Contributed(run: Run): nat {
    match run
    case Stopped(_, reason, page) => if reason == LastPage then page else page - 1
    case Raised(_, page) => page - 1
  }

  // ---------------------------------------------------------------------
  // The loop as the source writes it
  // ---------------------------------------------------------------------

  /** `run_paginated_scraper(start_url, keyword, max_pages_limit)` over a page source; it also
      returns the URLs it requested. */
  method RunPaginatedScraper(startUrl: string, src: PageSource, maxPagesLimit: int)
    returns (run: Run, urls: seq<string>)
    ensures run == Scrape(src, maxPagesLimit)
    ensures urls == FetchedUrls(startUrl, Requests(run))
  {
    ghost var ps := Parse(src);
    var allResults: seq<Product> := [];
    var currentPage: nat := 1;
    var maxPages: Option<nat> := None;
    urls := [];
    while true
      invariant 1 <= currentPage <= |src| + 1
      invariant Scrape(src, maxPagesLimit) == RunFrom(ps, maxPagesLimit, currentPage, maxPages, allResults)
      invariant urls == FetchedUrls(startUrl, currentPage - 1)
      decreases |src| + 1 - currentPage
    {
      if maxPagesLimit > 0 && currentPage > maxPagesLimit {
        run := Stopped(allResults, PageLimit, currentPage);
        break;
      }
      var url := startUrl;
      if currentPage > 1 {
        url := startUrl + "&page=" + NatToString(currentPage);
      }
      FetchedUrlsNext(startUrl, currentPage - 1);
      urls := urls + [url];
      ghost var rest := RunFrom(ps, maxPagesLimit, currentPage, maxPages, allResults);
      var html := Fetch(src, currentPage);
      FetchParsed(src, currentPage);
      if html.None? {
        run := Stopped(allResults, FetchFailed, currentPage);
        break;
      }
      var pageResults, parsedTotalPages := ParseSearchPage(html.value);
      assert Fetch(ps, currentPage) == Some(Parsed(pageResults, parsedTotalPages));
      if pageResults.Err? {
        run := Raised(pageResults.error, currentPage);
        break;
      }
      if parsedTotalPages.Some? && parsedTotalPages.value != 0 && maxPages.None? {
        maxPages := parsedTotalPages;
      }
      if pageResults.value == [] {
        run := Stopped(allResults, NoResults, currentPage);
        break;
      }
      allResults := allResults + pageResults.value;
      if maxPages.Some? && currentPage >= maxPages.value {
        run := Stopped(allResults, LastPage, currentPage);
        break;
      }
      assert rest == RunFrom(ps, maxPagesLimit, currentPage + 1, maxPages, allResults);
      currentPage := currentPage + 1;
    }
  }

  // ---------------------------------------------------------------------
  // What a run does, stated page by page
  // ---------------------------------------------------------------------

  /** The page count reported by page n, if it was fetched. */
  function ReportedTotal(ps: Outcomes, n: nat): Option<nat> {
    match Fetch(ps, n)
    case None => None
    case Some(parsed) => parsed.total
  }

  /** Page n reports a usable page count (non-zero). */
  predicate ReportsTotal(ps: Outcomes, n: nat) {
    ReportedTotal(ps, n).Some? && ReportedTotal(ps, n).value != 0
  }

  /** The page count in force after page n: the first non-zero count reported by pages 1..n. */
  function FirstTotal(ps: Outcomes, n: nat): Option<nat> {
    if n == 0 then None else Discover(FirstTotal(ps, n - 1), ReportedTotal(ps, n))
  }

  /** The records page n yields, or none if it cannot be fetched or parsed. */
  function PageRecords(ps: Outcomes, n: nat): seq<Product> {
    match Fetch(ps, n)
    case None => []
    case Some(parsed) => if parsed.records.Ok? then parsed.records.value else []
  }

  /** The records of pages 1..n, concatenated in page order. */
  function Gathered(ps: Outcomes, n: nat): seq<Product> {
    if n == 0 then [] else Gathered(ps, n - 1) + PageRecords(ps, n)
  }

  /** Page n is within the limit, is fetched, parses, has records and is not the last page
      reported so far: the loop moves on to page n + 1. */
  predicate Continues(ps: Outcomes, limit: int, n: nat) {
    !Limited(limit, n) && Fetch(ps, n).Some? && Fetch(ps, n).value.records.Ok?
    && PageRecords(ps, n) != []
    && !(FirstTotal(ps, n).Some? && n >= FirstTotal(ps, n).value)
  }

  /** The condition under which the run ends at its last page. */
  predicate StopsAt(ps: Outcomes, limit: int, run: Run) {
    var n := run.page;
    match run
    case Raised(e, _) =>
      !Limited(limit, n) && Fetch(ps, n).Some? && Fetch(ps, n).value.records == Err(e)
    case Stopped(_, PageLimit, _) => limit > 0 && n == limit + 1
    case Stopped(_, FetchFailed, _) => !Limited(limit, n) && Fetch(ps, n).None?
    case Stopped(_, NoResults, _) =>
      !Limited(limit, n) && Fetch(ps, n).Some? && Fetch(ps, n).value.records == Ok([])
    case Stopped(_, LastPage, _) =>
      !Limited(limit, n) && Fetch(ps, n).Some? && Fetch(ps, n).value.records.Ok?
      && PageRecords(ps, n) != [] && FirstTotal(ps, n).Some? && n >= FirstTotal(ps, n).value
  }

  /** From any loop state that pages 1..page-1 could have produced, the run continues
      through every page before the one it stops at, stops for the stated reason, and
      returns the records of exactly the pages it appended. */
  lemma {:induction false} RunFromSteps(ps: Outcomes, limit: int, page: nat, maxPages: Option<nat>, acc: seq<Product>)
    requires page >= 1
    requires forall n | 1 <= n < page :: Continues(ps, limit, n)
    requires maxPages == FirstTotal(ps, page - 1)
    requires acc == Gathered(ps, page - 1)
    ensures var run := RunFrom(ps, limit, page, maxPages, acc);
      page <= run.page
      && (forall n | 1 <= n < run.page :: Continues(ps, limit, n))
      && StopsAt(ps, limit, run)
      && (run.Stopped? ==> run.records == Gathered(ps, Contributed(run)))
    decreases |ps| + 1 - page
  {
    if Continues(ps, limit, page) {
      RunFromMovesOn(ps, limit, page, maxPages, acc);
      RunFromSteps(ps, limit, page + 1, FirstTotal(ps, page), Gathered(ps, page));
    } else {
      RunFromStops(ps, limit, page, maxPages, acc);
    }
  }

  /** A page that continues hands the next iteration the page count and records of
      pages 1..page. */
  lemma RunFromMovesOn(ps: Outcomes, limit: int, page: nat, maxPages: Option<nat>, acc: seq<Product>)
    requires page >= 1
    requires maxPages == FirstTotal(ps, page - 1)
    requires acc == Gathered(ps, page - 1)
    requires Continues(ps, limit, page)
    ensures RunFrom(ps, limit, page, maxPages, acc)
      == RunFrom(ps, limit, page + 1, FirstTotal(ps, page), Gathered(ps, page))
  {
    var parsed := Fetch(ps, page).value;
    assert PageRecords(ps, page) == parsed.records.value;
  }

  /** A page that does not continue ends the run, for the reason StopsAt names. */
  lemma RunFromStops(ps: Outcomes, limit: int, page: nat, maxPages: Option<nat>, acc: seq<Product>)
    requires page >= 1
    requires forall n | 1 <= n < page :: Continues(ps, limit, n)
    requires maxPages == FirstTotal(ps, page - 1)
    requires acc == Gathered(ps, page - 1)
    requires !Continues(ps, limit, page)
    ensures var run := RunFrom(ps, limit, page, maxPages, acc);
      run.page == page && StopsAt(ps, limit, run)
      && (run.Stopped? ==> run.records == Gathered(ps, Contributed(run)))
  {
    if Limited(limit, page) {
      if page > 1 {
        assert Continues(ps, limit, page - 1);
      }
      StopsAtLimit(ps, limit, page, maxPages, acc);
    } else {
      StopsInside(ps, limit, page, maxPages, acc);
    }
  }

  /** The first page past the limit is not requested. */
  lemma StopsAtLimit(ps: Outcomes, limit: int, page: nat, maxPages: Option<nat>, acc: seq<Product>)
    requires page >= 1 && Limited(limit, page)
    requires page == 1 || !Limited(limit, page - 1)
    ensures RunFrom(ps, limit, page, maxPages, acc) == Stopped(acc, PageLimit, page)
    ensures page == limit + 1
  {
  }

  /** A page within the limit that does not continue is the last one requested. */
  lemma StopsInside(ps: Outcomes, limit: int, page: nat, maxPages: Option<nat>, acc: seq<Product>)
    requires page >= 1 && !Limited(limit, page)
    requires maxPages == FirstTotal(ps, page - 1)
    requires acc == Gathered(ps, page - 1)
    requires !Continues(ps, limit, page)
    ensures var run := RunFrom(ps, limit, page, maxPages, acc);
      run.page == page && StopsAt(ps, limit, run)
      && (run.Stopped? ==> run.records == Gathered(ps, Contributed(run)))
  {
    var run := RunFrom(ps, limit, page, maxPages, acc);
    match Fetch(ps, page)
    case None =>
      assert run == Stopped(acc, FetchFailed, page);
    case Some(parsed) =>
      if parsed.records.Err? {
        assert run == Raised(parsed.records.error, page);
      } else {
        StopsAfterParsing(ps, limit, page, maxPages, acc, parsed);
      }
  }

  /** The two ways a page that parses can end the run: no records, or the last page. */
  lemma StopsAfterParsing(ps: Outcomes, limit: int, page: nat, maxPages: Option<nat>, acc: seq<Product>,
                          parsed: Parsed)
    requires page >= 1 && !Limited(limit, page)
    requires maxPages == FirstTotal(ps, page - 1)
    requires acc == Gathered(ps, page - 1)
    requires Fetch(ps, page) == Some(parsed) && parsed.records.Ok?
    requires parsed.records.value == [] || (FirstTotal(ps, page).Some? && page >= FirstTotal(ps, page).value)
    ensures var run := RunFrom(ps, limit, page, maxPages, acc);
      run.page == page && StopsAt(ps, limit, run)
      && (run.Stopped? ==> run.records == Gathered(ps, Contributed(run)))
  {
    var records := parsed.records.value;
    assert PageRecords(ps, page) == records;
    assert Discover(maxPages, parsed.total) == FirstTotal(ps, page);
    if records == [] {
      assert RunFrom(ps, limit, page, maxPages, acc) == Stopped(acc, NoResults, page);
    } else {
      assert RunFrom(ps, limit, page, maxPages, acc) == Stopped(acc + records, LastPage, page);
    }
  }

  /** The run, stated without the loop: pages 1..page-1 all continue, the last page
      stops it, and the result is the concatenation of the pages' records. */
  lemma ScrapeCharacterized(src: PageSource, limit: int)
    ensures var ps := Parse(src); var run := Scrape(src, limit);
      (forall n | 1 <= n < run.page :: Continues(ps, limit, n))
      && StopsAt(ps, limit, run)
      && (run.Stopped? ==> run.records == Gathered(ps, Contributed(run)))
  {
    RunFromSteps(Parse(src), limit, 1, None, []);
  }

  /** With a positive limit no page past the limit is requested or contributes. */
  lemma ScrapeRespectsLimit(src: PageSource, limit: int)
    requires limit > 0
    ensures Requests(Scrape(src, limit)) <= limit
    ensures Contributed(Scrape(src, limit)) <= limit
  {
    ScrapeCharacterized(src, limit);
  }

  /** A page that parses to no records ends the run there at the latest, and adds nothing. */
  lemma ScrapeStopsAtEmptyPage(src: PageSource, limit: int, n: nat)
    requires Fetch(src, n).Some? && ParseBlocks(Fetch(src, n).value.blocks) == Ok([])
    ensures Scrape(src, limit).page <= n
    ensures Contributed(Scrape(src, limit)) < n
  {
    FetchParsed(src, n);
    EmptyPageStops(Parse(src), limit, n);
  }

  lemma EmptyPageStops(ps: Outcomes, limit: int, n: nat)
    requires Fetch(ps, n).Some? && Fetch(ps, n).value.records == Ok([])
    ensures RunFrom(ps, limit, 1, None, []).page <= n
    ensures Contributed(RunFrom(ps, limit, 1, None, [])) < n
  {
    RunFromSteps(ps, limit, 1, None, []);
    var run := RunFrom(ps, limit, 1, None, []);
    assert !Continues(ps, limit, n);
    if run.Stopped? && run.reason == LastPage {
      assert run.page != n;
    }
  }

  /** Once a page at or past the first reported page count has been reached, no later page
      is requested. */
  lemma ScrapeStopsAtReportedLast(src: PageSource, limit: int, n: nat)
    requires FirstTotal(Parse(src), n).Some? && n >= FirstTotal(Parse(src), n).value
    ensures Scrape(src, limit).page <= n
  {
    ScrapeCharacterized(src, limit);
    assert !Continues(Parse(src), limit, n);
  }

  /** The run never requests a page more than one past the end of the source. */
  lemma {:induction false} RunFromBounded(ps: Outcomes, limit: int, page: nat, maxPages: Option<nat>, acc: seq<Product>)
    requires 1 <= page <= |ps| + 1
    ensures RunFrom(ps, limit, page, maxPages, acc).page <= |ps| + 1
    decreases |ps| + 1 - page
  {
    if !Limited(limit, page) && Fetch(ps, page).Some? {
      var parsed := Fetch(ps, page).value;
      if parsed.records.Ok? && parsed.records.value != [] {
        var maxPages' := Discover(maxPages, parsed.total);
        if !(maxPages'.Some? && page >= maxPages'.value) {
          RunFromBounded(ps, limit, page + 1, maxPages', acc + parsed.records.value);
        }
      }
    }
  }

  /** The run requests at most one page past the end of the source. */
  lemma ScrapeBoundedBySource(src: PageSource, limit: int)
    ensures Scrape(src, limit).page <= |src| + 1
    ensures Requests(Scrape(src, limit)) <= |src| + 1
  {
    RunFromBounded(Parse(src), limit, 1, None, []);
  }

  /** Every page whose records were appended had records. */
  lemma ScrapeContributorsNonEmpty(src: PageSource, limit: int)
    ensures forall n | 1 <= n <= Contributed(Scrape(src, limit)) :: PageRecords(Parse(src), n) != []
  {
    ContributorsNonEmpty(Parse(src), limit);
  }

  lemma ContributorsNonEmpty(ps: Outcomes, limit: int)
    ensures var run := RunFrom(ps, limit, 1, None, []);
      forall n | 1 <= n <= Contributed(run) :: PageRecords(ps, n) != []
  {
    RunFromSteps(ps, limit, 1, None, []);
    var run := RunFrom(ps, limit, 1, None, []);
    var last := Contributed(run);
    assert last < run.page || (run.Stopped? && run.reason == LastPage && last == run.page);
    forall n | 1 <= n <= last
      ensures PageRecords(ps, n) != []
    {
      if n < run.page {
        ContinuesHasRecords(ps, limit, n);
      }
    }
  }

  lemma ContinuesHasRecords(ps: Outcomes, limit: int, n: nat)
    requires Continues(ps, limit, n)
    ensures PageRecords(ps, n) != []
  {
  }

  /** The page count in force is the count reported by the first page that reported a
      non-zero one, and is absent while no page has. */
  lemma {:induction false} FirstTotalIsFirstReported(ps: Outcomes, n: nat)
    ensures FirstTotal(ps, n).None? <==> forall k | 1 <= k <= n :: !ReportsTotal(ps, k)
    ensures FirstTotal(ps, n).Some? ==>
      exists k | 1 <= k <= n :: ReportsTotal(ps, k) && FirstTotal(ps, n) == ReportedTotal(ps, k)
        && forall j | 1 <= j < k :: !ReportsTotal(ps, j)
  {
    if n > 0 {
      FirstTotalIsFirstReported(ps, n - 1);
      if FirstTotal(ps, n - 1).Some? {
        var k :| 1 <= k <= n - 1 && ReportsTotal(ps, k) && FirstTotal(ps, n - 1) == ReportedTotal(ps, k)
          && forall j | 1 <= j < k :: !ReportsTotal(ps, j);
        assert FirstTotal(ps, n) == FirstTotal(ps, n - 1);
      } else if ReportsTotal(ps, n) {
        assert FirstTotal(ps, n) == ReportedTotal(ps, n);
      }
    }
  }

  // ---------------------------------------------------------------------
  // save_to_csv
  // ---------------------------------------------------------------------

  /** The column order of the CSV file: the keys of the first record, in the order the parser builds them. */
  const Columns: seq<string> :=
    ["title", "product_url", "brand", "price", "rating", "review_count", "shipping"]

  datatype CsvTable = CsvTable(header: seq<string>, rows: seq<Product>)

  /** The table `save_to_csv` writes; an empty result list writes no file. */
  function SaveToCsv(data: seq<Product>): (table: Option<CsvTable>)
    ensures table.None? <==> data == []
    ensures table.Some? ==> table.value.header == Columns && table.value.rows == data
  {
    if data == [] then None else Some(CsvTable(Columns, data))
  }

  // ---------------------------------------------------------------------
  // An end-to-end run
  // ---------------------------------------------------------------------

  /** A listing titled "Brand X Widget" priced $199.99, with no brand logo. */
  const WidgetBlock: Block :=
    Block(Some(TitleLink("Brand X Widget", None)), Some(PriceCurrent(Some("199"), Some("99"))),
          None, "", None, None, None, None, None)

  /** A listing without a title link. */
  const UntitledBlock: Block := Block(None, None, None, "", None, None, None, None, None)

  const WidgetPage: Page := Page(None, [WidgetBlock, UntitledBlock])

  /** The record the widget listing yields. */
  const WidgetRecord: Product := Product("Brand X Widget", "", "Brand", Some(199.99), None, None, "")

  lemma WidgetPageRecords()
    ensures ParseBlocks(WidgetPage.blocks) == Ok([WidgetRecord])
  {
    var bs := WidgetPage.blocks;
    assert bs[1..] == [UntitledBlock];
    assert [UntitledBlock][1..] == [];
    assert ParseBlocks([UntitledBlock]) == Ok([]);
    WidgetRecordParsed();
    assert ParseBlocks(bs) == Prepend([WidgetRecord], ParseBlocks([UntitledBlock]));
    assert [WidgetRecord] + [] == [WidgetRecord];
    assert Prepend([WidgetRecord], Ok([])) == Ok([WidgetRecord]);
  }

  lemma WidgetRecordParsed()
    ensures ParseBlock(WidgetBlock.title.value, WidgetBlock) == Ok(WidgetRecord)
  {
    WidgetBrand();
    WidgetPrice();
  }

  lemma WidgetBrand()
    ensures BrandOf(None, "Brand X Widget") == Ok("Brand")
  {
    FirstTokenOfWords("Brand", " X Widget");
    WidgetTitlePieces();
  }

  lemma WidgetTitlePieces()
    ensures "Brand" + " X Widget" == "Brand X Widget"
  {
  }

  lemma WidgetPrice()
    ensures PriceFromBlock(WidgetBlock) == Some(199.99)
  {
    var num := "199" + "99";
    StripCommasNoComma(num);
    assert num[..4] == "1999" && "1999"[..3] == "199" && "199"[..2] == "19" && "19"[..1] == "1";
    assert "1"[..0] == [];
    assert DigitsValue(num) == 19999;
    SpliceReadsHundredths(num);
  }

  /** Two pages, each with the widget and an untitled listing, and no page count: both
      pages contribute one record, and the run ends when page 3 cannot be fetched. */
  lemma ScrapeTwoPagesExample()
    ensures Scrape([Some(WidgetPage), Some(WidgetPage)], 0)
      == Stopped([WidgetRecord, WidgetRecord], FetchFailed, 3)
  {
    var src := [Some(WidgetPage), Some(WidgetPage)];
    WidgetFetch(src, 1);
    WidgetFetch(src, 2);
    TwoPageRun(Parse(src), WidgetRecord, []);
    assert [] + [WidgetRecord] + [WidgetRecord] == [WidgetRecord, WidgetRecord];
  }

  /** Two pages that each parse to one record r and no page count. */
  lemma TwoPageRun(ps: Outcomes, r: Product, acc: seq<Product>)
    requires |ps| == 2 && ps[0] == Some(Parsed(Ok([r]), None)) && ps[1] == Some(Parsed(Ok([r]), None))
    ensures RunFrom(ps, 0, 1, None, acc) == Stopped(acc + [r] + [r], FetchFailed, 3)
  {
    OneRecordStep(ps, 1, acc, r);
    LastPageRun(ps, r, acc + [r]);
  }

  /** The second and last page parses to one record r and no page count. */
  lemma LastPageRun(ps: Outcomes, r: Product, acc: seq<Product>)
    requires |ps| == 2 && ps[1] == Some(Parsed(Ok([r]), None))
    ensures RunFrom(ps, 0, 2, None, acc) == Stopped(acc + [r], FetchFailed, 3)
  {
    OneRecordStep(ps, 2, acc, r);
    PastTheSource(ps, acc + [r]);
  }

  /** A widget page parses to the widget record and no page count. */
  lemma WidgetFetch(src: PageSource, page: nat)
    requires 1 <= page <= |src| && src[page - 1] == Some(WidgetPage)
    ensures Fetch(Parse(src), page) == Some(Parsed(Ok([WidgetRecord]), None))
  {
    FetchParsed(src, page);
    WidgetPageRecords();
  }

  /** Without a page limit, a page with one record and no page count appends it and moves on. */
  lemma OneRecordStep(ps: Outcomes, page: nat, acc: seq<Product>, r: Product)
    requires 1 <= page <= |ps| && ps[page - 1] == Some(Parsed(Ok([r]), None))
    ensures RunFrom(ps, 0, page, None, acc) == RunFrom(ps, 0, page + 1, None, acc + [r])
  {
  }

  /** Without a page limit, the page after the last one cannot be fetched. */
  lemma PastTheSource(ps: Outcomes, acc: seq<Product>)
    ensures RunFrom(ps, 0, |ps| + 1, None, acc) == Stopped(acc, FetchFailed, |ps| + 1)
  {
  }
}
