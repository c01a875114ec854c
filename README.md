# Newegg search scraper and GPU classifier — a verified Dafny model

This project models two parts of a small data pipeline that scrapes Newegg
search results and classifies graphics cards:

* **The scraper** (`src/Fetch.py`):
  * **Field rules.** Each listing block on a search page yields a price, a
    rating, a review count and a brand.
  * **Page parsing.** A page yields its records and the page count
    announced in its pagination summary.
  * **The paginated scrape loop.** It requests page after page and stops
    at one of these: the page limit, a failed request, a page without
    records, or the last page the site reported.
  * **Page URLs and CSV guard.** The URLs of the pages, and the guard that
    writes no CSV file for an empty result.
* **The classifier** (`src/Classify_gpu.py`): `classify_gpu_logic`, a
  keyword decision list over the upper-cased product title. It yields one
  of five categories.

HTML parsing and the network are not modelled.

* **Listing blocks.** A block is the record of the strings and attributes
  the CSS selectors pick out, each of them optional: the title link, the
  strong and sup texts of the current price, and so on.
* **Pages.** A page is its pagination summary plus its blocks.
* **Responses.** The web is a finite page source: the response to the
  request for page n is `src[n-1]`. `None` stands for a failed request,
  and every page past the end of the source fails.
* **What the loop sees.** The loop uses only what `parse_search_page`
  returns for each page: its records (or the exception) and its page
  count. `Scrape` and the lemmas about it are stated over that parsed
  source, `Parse(src)`.

The files:

| file | module | contents |
|---|---|---|
| `wrappers.dfy` | `Wrappers` | `Option` and `Result` |
| `text.dfy` | `Text` | The Python builtins the core relies on: `float()` on decimal text, `int()` on digits, `str(n)`, `replace(",", "")`, `split()[0]`, `" ".join`, `upper()` and `in` |
| `patterns.dfy` | `Patterns` | The six fixed regular expressions, each hand-coded as a matcher at one position, and `re.search` as the leftmost position that matches |
| `listing.dfy` | `Listing` | `parse_price_from_block`, `parse_rating_and_reviews`, the total-page detection and the block loop of `parse_search_page` |
| `scraper.dfy` | `Scraper` | `run_paginated_scraper` as a method with a loop, proved equal to a recursive specification `Scrape`; the page URLs; `save_to_csv`'s empty-input guard |
| `gpu_classifier.dfy` | `GpuClassifier` | `classify_gpu_logic` and its priority properties |

Three modelling choices:

* **Uncaught exceptions.** Two exceptions of the source escape the parser
  on inputs the model covers: `int("")` on a review group made only of
  commas, and `title.split()[0]` on a title without a token. They are
  modelled as `Err` results. (`int()` on a group of more than 4300 digits
  is a third; see "Left out".) Such an error ends
  the whole run (`Run.Raised`), as the exception does.
* **Exact numbers.** Prices and ratings are exact rationals (`real`).
* **Where the description and the code differ, the model follows the
  code:**
  * The parser can raise, through the two exceptions above.
  * A rating read from the aria-label is not bounded to 0–5.
  * A page summary "of 0" is parsed to 0 and then ignored by the loop,
    because 0 is falsy.

## Model

| member | source | states |
|---|---|---|
| Text.ParseFloatOfDecimal | src/Fetch.py:43 | `float(whole + "." + frac)` on digit strings is whole plus frac scaled by its width |
| Text.StripCommasDigits | src/Fetch.py:93 | removing commas from a run of digits and commas leaves digits, empty exactly when the run had no digit |
| Text.FirstToken | src/Fetch.py:129 | `split()[0]` fails exactly on an all-whitespace title; otherwise it is a non-empty token without whitespace that starts the title after leading whitespace and ends at whitespace or the end |
| Text.FirstTokenOfWords | src/Fetch.py:129 | a title that starts with a word followed by whitespace (or nothing) has that word as its first token |
| Text.UpperIdempotent | src/Classify_gpu.py:10 | upper-casing twice is upper-casing once |
| Listing.SpliceReadsHundredths | src/Fetch.py:38-45 | the spliced text `num[:-2] + "." + num[-2:]` parses exactly when num is a non-empty digit string, and then reads num as hundredths (tenths for one digit) |
| Listing.SplicedPriceWithCents | src/Fetch.py:38-45 | strong "1,299" with sup "99" is 1299.99 |
| Listing.SplicedPriceWithoutSup | src/Fetch.py:40-43 | strong "999" without a sup is 999.00 |
| Patterns.DollarCentsAt | src/Fetch.py:49 | a two-decimal match at a position captures a group lying inside the string, at or after that position, made of a non-empty run of digits and commas, a '.' and two digits |
| Patterns.DollarWholeAt | src/Fetch.py:51 | a whole-dollar match at a position captures a non-empty group lying inside the string, at or after that position, made only of digits and commas |
| Patterns.DollarCentsOccursMatch | src/Fetch.py:49 | '$', whitespace, digits and commas, '.' and two digits at a position is a match of `\$\s*([\d,]+\.\d{2})` there, its group running from the first digit or comma to the second decimal |
| Patterns.MatchDollarCentsOccurs | src/Fetch.py:49 | every match of the two-decimal pattern has that form |
| Patterns.DollarWholeOccursMatch | src/Fetch.py:51 | '$', whitespace and the longest run of digits and commas at a position is a match of `\$\s*([\d,]+)` there, the run being its group |
| Patterns.MatchDollarWholeOccurs | src/Fetch.py:51 | every match of the whole-dollar pattern has that form |
| Patterns.RatedOccursMatch | src/Fetch.py:74 | "rated" in any case, whitespace, digits and dots, whitespace and "out" in any case is a match of the label pattern, its group being the digits and dots |
| Patterns.MatchRatedOccurs | src/Fetch.py:74 | every match of the label pattern has that form |
| Patterns.RatingOccursMatch | src/Fetch.py:82 | `rating-(\d)` matches at a position exactly when "rating-" and a digit are there, the digit being the group |
| Patterns.ParenOccursMatch | src/Fetch.py:91 | '(', digits and commas and ')' is a match of `\(([\d,]+)\)`, its group being what lies between the parentheses |
| Patterns.MatchParenOccurs | src/Fetch.py:91 | every match of the review-count pattern has that form |
| Patterns.OfOccursMatch | src/Fetch.py:104 | "of", whitespace and the longest run of digits is a match of `of\s+(\d+)`, the digits being its group |
| Patterns.MatchOfOccurs | src/Fetch.py:104 | every match of the page-count pattern has that form |
| Listing.RegexPriceTwoDecimals | src/Fetch.py:49-57 | the first `$d,ddd.cc` amount in the scope always converts, to its dollars with the commas removed plus its cents/100, so the whole-dollar rule is never reached |
| Listing.RegexPriceWholeDollars | src/Fetch.py:50-57 | with no two-decimal amount anywhere, the first whole-dollar `$` amount converts to its digits' value, or falls through when it is only commas |
| Listing.RegexPriceWithoutAmount | src/Fetch.py:49-57 | a scope with no `$` amount at all gives no regex price |
| Listing.RegexPriceExample | src/Fetch.py:49-57 | "Now $1,299.99" is 1299.99 |
| Listing.AttributePrice | src/Fetch.py:59-64 | the attribute gives a price only when present and non-empty, and that price is non-negative |
| Listing.AttributePriceOfDecimal | src/Fetch.py:59-64 | a `data-price` "W.F" on digit strings is W plus F scaled by its width |
| Listing.AttributePriceExample | src/Fetch.py:33-65 | a block whose strong/sup rule fails and whose text has no `$` amount takes `data-price="249.5"`, giving 249.5 |
| Listing.PriceFromBlock | src/Fetch.py:33-65 | the price is non-negative; the strong/sup rule wins whenever it parses; when it does not, a converting `$` amount comes next, and only then the `data-price` attribute; the price is absent exactly when all three rules fail |
| Listing.ClassRating | src/Fetch.py:80-87 | a `rating-N` class rating is a whole number from 0 to 9 |
| Listing.RatingFromIcon | src/Fetch.py:67-87 | no rating icon gives no rating; an aria-label rating takes precedence; only without one is the class rating used |
| Listing.RatingFromIconAbsent | src/Fetch.py:67-87 | an icon with neither the "Rated … out" phrase in its label nor a `rating-N` class gives no rating |
| Listing.LabelRatingOfFirst | src/Fetch.py:72-79 | the first occurrence of "Rated", whitespace, a number, whitespace and "out", in any letter case and anywhere in the aria-label, yields `float(number)` |
| Listing.LabelRatingWithoutPhrase | src/Fetch.py:72-79 | an aria-label in which that phrase occurs nowhere gives no label rating |
| Listing.LabelRatingExample | src/Fetch.py:72-79 | "Rated 4.5 out of 5" is the rating 4.5 |
| Listing.LabelRatingLaterExample | src/Fetch.py:72-79 | "Top pick, rated 4.5 out of 5", with the phrase later and in lower case, is also 4.5 |
| Listing.ClassRatingOfToken | src/Fetch.py:80-87 | the first `rating-N` in the space-joined class list, wherever it occurs, yields N |
| Listing.ClassRatingAfter | src/Fetch.py:80-87 | a class `rating-N` preceded only by classes without '-' yields N |
| Listing.ClassRatingOfUsualList | src/Fetch.py:80-87 | the icon's usual classes "rating", "rating-N", … yield N |
| Listing.ClassRatingAbsent | src/Fetch.py:80-87 | a class list gives no class rating exactly when no `rating-N` occurs in the space-joined list |
| Listing.ReviewCount | src/Fetch.py:89-94 | a missing review span gives no count and no error |
| Listing.ReviewCountOfGroup | src/Fetch.py:89-94 | the first parenthesised group of digits and commas, wherever it occurs, gives its digits' value with the commas removed, or the `int("")` error when it has no digit |
| Listing.ReviewCountWithoutGroup | src/Fetch.py:91-93 | review text gives no count and no error exactly when no parenthesised group of digits and commas occurs in it |
| Listing.ReviewCountExample | src/Fetch.py:89-94 | "(12,345)" is 12345 |
| Listing.TotalPagesOfFirst | src/Fetch.py:101-109 | the first occurrence of "of", whitespace and a maximal run of digits, wherever it is, gives the value of those digits as the page count |
| Listing.TotalPagesAbsent | src/Fetch.py:101-109 | a summary has no page count exactly when "of", whitespace and digits occur nowhere in it |
| Listing.TotalPagesOfSummary | src/Fetch.py:101-109 | a summary "... of N ..." whose text before "of" holds no other "of" reports N pages |
| Listing.TotalPagesWithoutOf | src/Fetch.py:101-109 | a summary without "of" reports no page count |
| Listing.TotalPagesExample | src/Fetch.py:101-109 | "Showing 1-36 of 120" reports 120 pages |
| Listing.BrandOf | src/Fetch.py:124-129 | a non-empty brand-logo title is the brand; otherwise the title's first token; the error, which is always `TitleHasNoToken` (the `IndexError` of `split()[0]`), occurs exactly when there is no logo title and the title has no token; a brand is never empty |
| Listing.ParseBlock | src/Fetch.py:113-139 | a block fails exactly when its review count or its brand fails, with the review error first and otherwise `TitleHasNoToken`; a record keeps the title, the href or "" as URL and the ship text or "" as shipping, and takes its price, rating, review count and non-empty brand from the field rules |
| Listing.ParseBlocks | src/Fetch.py:111-141 | a page never yields more records than blocks, and every record has a brand |
| Listing.ParseBlocksRecords | src/Fetch.py:111-141 | when every titled block parses, the records are exactly the parsed titled blocks, one each, in block order; untitled blocks are skipped |
| Listing.ParseBlocksFirstError | src/Fetch.py:111-141 | the first block that raises aborts the page with its error |
| Listing.ParseSearchPage | src/Fetch.py:96-141 | the loop over blocks returns the records `ParseBlocks` specifies and the page count `TotalPages` specifies |
| Scraper.PageUrlInjective | src/Fetch.py:175-177 | distinct pages are requested under distinct URLs (page 1 bare, page n "&page=n") |
| Scraper.RunPaginatedScraper | src/Fetch.py:158-215 | the loop's outcome is `Scrape(src, limit)` and it requests the URLs of pages 1 to `Requests(run)` in order |
| Scraper.RunFromSteps | src/Fetch.py:170-212 | from any loop state pages 1..p-1 can produce, every later page before the last continues, the last stops for the stated reason, and the records are those of the contributing pages |
| Scraper.ScrapeCharacterized | src/Fetch.py:170-215 | a whole run, stated page by page: pages before the last continue, the last page stops the run, the result is the in-order concatenation of the contributing pages' records |
| Scraper.ScrapeRespectsLimit | src/Fetch.py:171-173 | with a positive limit no page past it is requested or contributes |
| Scraper.ScrapeStopsAtEmptyPage | src/Fetch.py:202-204 | a page with no records ends the run there at the latest and contributes nothing |
| Scraper.ScrapeStopsAtReportedLast | src/Fetch.py:208-210 | no page after the first page at or past the reported page count is requested |
| Scraper.RunFromBounded | src/Fetch.py:170-212 | from any page within one past the end of the source, the run stops no later than one page past the end |
| Scraper.ScrapeBoundedBySource | src/Fetch.py:181-184 | the run requests at most one page past the end of the source |
| Scraper.ScrapeContributorsNonEmpty | src/Fetch.py:202-206 | every page whose records were appended had records |
| Scraper.FirstTotalIsFirstReported | src/Fetch.py:198-199 | the page count in force is the one reported by the first page that reported a non-zero count, and is absent until one does |
| Scraper.SaveToCsv | src/Fetch.py:143-148 | an empty result writes nothing; otherwise the table has the record fields as header and the records as rows |
| Scraper.ScrapeTwoPagesExample | src/Fetch.py:111-215 | two pages with a "Brand X Widget" listing at $199.99 and an untitled listing yield two records with brand "Brand" and price 199.99 |
| GpuClassifier.ClassifyUpper | src/Classify_gpu.py:12-40 | the decision list always yields one of the five labels |
| GpuClassifier.ClassifyGpuLogic | src/Classify_gpu.py:6-40 | the result is one of the five labels; a missing title is "Uncategorized" |
| GpuClassifier.ClassifyCaseInsensitive | src/Classify_gpu.py:10 | classifying the upper-cased title gives the same label |
| GpuClassifier.WaterCooledIff | src/Classify_gpu.py:12-19 | "Water Cooled Flagship" exactly when a water keyword occurs, or GIGABYTE with " W-", " WB-" or "WATERFORCE" |
| GpuClassifier.WaterDecisionReduced | src/Classify_gpu.py:12-19 | the WATERFORCE tests are subsumed by the keyword WATER |
| GpuClassifier.SuffixAloneIsNotWater | src/Classify_gpu.py:16-19 | " W-" or " WB-" without GIGABYTE or a water keyword does not make a title water-cooled |
| GpuClassifier.AorusMasterIsAirFlagship | src/Classify_gpu.py:22-34 | an AORUS MASTER title also matches the gaming list, yet it is an air-cooled flagship unless water-cooled |
| GpuClassifier.GameEnhancedReduced | src/Classify_gpu.py:29-34 | the gaming list behaves like AORUS, GAMING and VANGUARD alone |
| GpuClassifier.BasicIff | src/Classify_gpu.py:36-38 | "Basic" exactly when no water, air-flagship or gaming test succeeds and a basic keyword occurs |
| GpuClassifier.UncategorizedIff | src/Classify_gpu.py:6-40 | "Uncategorized" exactly when the title is missing or no keyword test succeeds |

## Left out

- HTTP fetching is replaced by the page source. This covers `fetch_html`, `requests`, the timeout and the random User-Agent of `get_headers`.
- An empty response body is treated as a failed request; the source tests `not html`, which is true for both.
- The randomized `time.sleep` between pages is not modelled; it has no effect on the result.
- File output is not modelled: the raw-snapshot writes, `os.makedirs`, the CSV writing in `save_to_csv`, and `run_fetch`. `SaveToCsv` yields the table that would be written.
- Console messages are not modelled.
- BeautifulSoup is not modelled. Blocks arrive with their selected strings already extracted. The texts the source strips (the title, the price's strong and sup, the review span, the shipping line and the page summary) arrive stripped. The price-area text and the block's full text (`get_text()` without strip) and the attributes (aria-label, class list, `data-price`, href, the brand image's title) arrive as they are.
- ReviewCount, TotalPages: CPython's `int()` refuses decimal text of more than 4300 digits with `ValueError`. On such a review group the source raises out of `parse_rating_and_reviews`, and on such a page count it falls into the `except` at src/Fetch.py:108-109 and reports no count. The model reads the value in both cases, because the limit is an interpreter setting rather than part of the program.
- The `keyword` argument is not modelled. `parse_search_page` does not use it, and `run_paginated_scraper` uses it only in messages and snapshot names.
- The regular-expression engine is not modelled; only the six fixed patterns are, hand-coded.
- Scrape: the loop is bounded by the finite page source rather than by a page cap. A site that answers every page forever is not modelled.
- ParseFloat: accepts only unsigned ASCII decimal text with at most one '.'. It does not model Python's acceptance of signs, exponents, surrounding whitespace, underscores, "inf"/"nan" or non-ASCII digits, and it yields exact rationals rather than rounded binary floats.
- AttributePrice: inherits the ParseFloat restriction for the `data-price` attribute.
- DigitsValue: ASCII digits only; Python's `\d` and `int()` also accept other Unicode decimal digits.
- Upper: upper-cases ASCII letters only; Python's `str.upper()` also maps other letters, including some that change length.
- ClassifyGpuLogic: inherits the ASCII-only upper-casing of Upper.
- ClassifyGpuLogic: a non-string title (None or pandas NaN) is modelled as `None`.
- `run_classification` is not part of this model; it is pandas and plotting.
- The other source files are not part of this model: analysis, cleaning, visualization and `main.py`.
