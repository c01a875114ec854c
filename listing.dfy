/**
 * Parsing of one Newegg search-result page (src/Fetch.py): the price,
 * rating, review-count, brand and page-count extraction rules, and the
 * assembly of product records from the page's listing blocks.
 *
 * HTML is not parsed here. A listing block is given as the strings and
 * attributes the scraper's CSS selectors pick out of one `div.item-cell`,
 * each of them optional, and a page as its pagination summary text plus
 * its blocks in document order.
 */
module Listing {
  import opened Wrappers
  import opened Text
  import opened Patterns

  // ---------------------------------------------------------------------
  // Inputs and outputs
  // ---------------------------------------------------------------------

  /** `a.item-title`: its stripped text and its `href` attribute. */
  datatype TitleLink = TitleLink(text: string, href: Option<string>)

  /** `li.price-current`: the stripped texts of its `strong` and `sup` children, if present. */
  datatype PriceCurrent = PriceCurrent(strong: Option<string>, sup: Option<string>)

  /** `i.rating`: its `aria-label` attribute and its class list. */
  datatype RatingIcon = RatingIcon(ariaLabel: Option<string>, classes: seq<string>)

  datatype Block = Block(
    title: Option<TitleLink>,
    priceCurrent: Option<PriceCurrent>,
    priceArea: Option<string>,   // text of `.item-action .price-area`
    text: string,                // text of the whole block
    dataPrice: Option<string>,   // `data-price` of a nested `div.item-cell[data-price]`
    rating: Option<RatingIcon>,
    reviews: Option<string>,     // stripped text of `span.item-rating-num`
    ship: Option<string>,        // stripped text of `li.price-ship`
    brandTitle: Option<string>)  // `title` of `a.item-brand img`

  /** A page: the stripped text of the pagination `span.page-title`, and the listing blocks. */
  datatype Page = Page(pageTitle: Option<string>, blocks: seq<Block>)

  /** One scraped record; prices and ratings are exact decimals. */
  datatype Product = Product(
    title: string,
    productUrl: string,
    brand: string,
    price: Option<real>,
    rating: Option<real>,
    reviewCount: Option<nat>,
    shipping: string)

  /** The exceptions the parser does not catch. */
  datatype ParseError =
    | ReviewCountNotInteger  // int("") on a parenthesised group made only of commas
    | TitleHasNoToken        // title.split()[0] on a title with no token

  // ---------------------------------------------------------------------
  // Price
  // ---------------------------------------------------------------------

  /** Where `num[:-2]` ends: two characters from the end, or 0 for shorter text. */
  function SplitPoint(num: string): nat {
    if |num| >= 2 then |num| - 2 else 0
  }

  /** `num[:-2] + "." + num[-2:]`. */
  function SpliceDigits(num: string): string {
    num[..SplitPoint(num)] + "." + num[SplitPoint(num)..]
  }

  /** The `sup` text, "00" when there is no `sup`. */
  function Fraction(sup: Option<string>): string {
    if sup.Some? then sup.value else "00"
  }

  /** Rule 1: strong + sup, commas removed, last two digits read as cents. */
  function SplicedPrice(pc: Option<PriceCurrent>): Option<real> {
    if pc.None? || pc.value.strong.None? then None
    else ParseFloat(SpliceDigits(StripCommas(pc.value.strong.value + Fraction(pc.value.sup))))
  }

  /** Only a non-empty digit string survives the splice, and it is read as hundredths
      (tenths when it has a single digit). */
  lemma SpliceReadsHundredths(num: string)
    ensures ParseFloat(SpliceDigits(num)) ==
      if |num| >= 1 && AllDigits(num) then
        Some(DigitsValue(num) as real / (if |num| >= 2 then 100.0 else 10.0))
      else None
  {
    if |num| >= 1 && AllDigits(num) {
      SpliceOfDigits(num);
    } else if ParseFloat(SpliceDigits(num)).Some? {
      SpliceParsesOnlyDigits(num);
    }
  }

  /** "1,299" with sup "99" is 1299.99. */
  lemma SplicedPriceWithCents()
    ensures SplicedPrice(Some(PriceCurrent(Some("1,299"), Some("99")))) == Some(1299.99)
  {
    CentsExampleText();
    StripCommasGrouped("1", "29999");
    CentsExampleValue();
    SpliceReadsHundredths("129999");
  }

  lemma CentsExampleText()
    ensures "1,299" + "99" == "1" + "," + "29999"
    ensures "1" + "29999" == "129999"
  {
  }

  lemma CentsExampleValue()
    ensures AllDigits("129999") && DigitsValue("129999") == 129999
  {
    assert "129999"[..5] == "12999" && "12999"[..4] == "1299" && "1299"[..3] == "129";
    assert "129"[..2] == "12" && "12"[..1] == "1" && "1"[..0] == [];
  }

  /** "999" without a sup is 999.00. */
  lemma SplicedPriceWithoutSup()
    ensures SplicedPrice(Some(PriceCurrent(Some("999"), None))) == Some(999.0)
  {
    var num := "999" + "00";
    StripCommasNoComma(num);
    assert num[..4] == "9990" && "9990"[..3] == "999" && "999"[..2] == "99" && "99"[..1] == "9";
    assert "9"[..0] == [];
    assert DigitsValue(num) == 99900;
    SpliceReadsHundredths(num);
  }

  lemma SpliceOfDigits(num: string)
    requires |num| >= 1 && AllDigits(num)
    ensures ParseFloat(SpliceDigits(num)) ==
      Some(DigitsValue(num) as real / (if |num| >= 2 then 100.0 else 10.0))
  {
    var p := SplitPoint(num);
    SplitDigits(num, p);
    ParseFloatOfDecimal(num[..p], num[p..]);
    SplitValue(num, p);
  }

  lemma SplitDigits(num: string, p: nat)
    requires p <= |num| && AllDigits(num)
    ensures AllDigits(num[..p]) && AllDigits(num[p..])
  {
    assert forall i | 0 <= i < |num[p..]| :: num[p..][i] == num[p + i];
  }

  lemma SplitValue(num: string, p: nat)
    requires |num| >= 1 && AllDigits(num)
    requires p == if |num| >= 2 then |num| - 2 else 0
    ensures AllDigits(num[..p]) && AllDigits(num[p..])
    ensures DecimalValue(num[..p], num[p..]) ==
      DigitsValue(num) as real / (if |num| >= 2 then 100.0 else 10.0)
  {
    var whole, frac := num[..p], num[p..];
    SplitDigits(num, p);
    SplitNumeral(num, p);
    ScaledValue(DigitsValue(whole), DigitsValue(frac), Pow10(|frac|), DigitsValue(num));
  }

  /** The numeral as its whole part shifted left past the fraction digits, plus those digits. */
  lemma SplitNumeral(num: string, p: nat)
    requires |num| >= 1 && AllDigits(num)
    requires p == if |num| >= 2 then |num| - 2 else 0
    ensures AllDigits(num[..p]) && AllDigits(num[p..])
    ensures DigitsValue(num) == DigitsValue(num[..p]) * Pow10(|num[p..]|) + DigitsValue(num[p..])
    ensures Pow10(|num[p..]|) == if |num| >= 2 then 100 else 10
  {
    SplitDigits(num, p);
    assert num[..p] + num[p..] == num;
    DigitsValueAppend(num[..p], num[p..]);
    assert Pow10(0) == 1;
  }

  /** w + f/d read as one number of hundredths (or tenths). */
  lemma ScaledValue(w: nat, f: nat, d: nat, n: nat)
    requires d == 100 || d == 10
    requires n == w * d + f
    ensures w as real + f as real / d as real == n as real / d as real
  {
  }

  lemma SpliceParsesOnlyDigits(num: string)
    requires ParseFloat(SpliceDigits(num)).Some?
    ensures |num| >= 1 && AllDigits(num)
  {
    var cand := SpliceDigits(num);
    var p := SplitPoint(num);
    var whole, frac := num[..p], num[p..];
    assert cand[p] == '.';
    var k := DotIndex(cand);
    assert k <= p;
    assert k == p;
    assert cand[..k] == whole && cand[k + 1..] == frac;
    DigitsValueAppend(whole, frac);
    assert whole + frac == num;
  }

  /** The scope the `$` patterns search: the price area, else the whole block. */
  function PriceScope(b: Block): string {
    if b.priceArea.Some? then b.priceArea.value else b.text
  }

  /** Rules 2 and 3: the first `$d.dd` amount, else the first `$d` amount. */
  function RegexPrice(scope: string): Option<real> {
    var cents := Search(DollarCents, scope);
    var m := if cents.Some? then cents else Search(DollarWhole, scope);
    if m.None? then None else ParseFloat(StripCommas(GroupText(scope, m.value)))
  }

  /** A `$d.dd` group converts: its value is the dollars plus the two-digit cents. */
  lemma CentsGroupValue(g: string)
    requires GroupShape(DollarCents, g)
    ensures AllDigits(StripCommas(g[..|g| - 3])) && AllDigits(g[|g| - 2..])
    ensures ParseFloat(StripCommas(g)) == Some(DecimalValue(StripCommas(g[..|g| - 3]), g[|g| - 2..]))
  {
    CentsGroupParts(g);
    ParseFloatOfDecimal(StripCommas(g[..|g| - 3]), g[|g| - 2..]);
  }

  lemma CentsGroupParts(g: string)
    requires GroupShape(DollarCents, g)
    ensures AllDigits(StripCommas(g[..|g| - 3])) && AllDigits(g[|g| - 2..])
    ensures StripCommas(g) == StripCommas(g[..|g| - 3]) + "." + g[|g| - 2..]
  {
    var dollars, cents := g[..|g| - 3], g[|g| - 2..];
    var tail := "." + cents;
    CentsGroupDollars(g);
    CentsGroupSplit(g);
    StripCommasAppend(dollars, tail);
    calc {
      StripCommas(g);
      StripCommas(dollars + tail);
      StripCommas(dollars) + StripCommas(tail);
      StripCommas(dollars) + tail;
      { AppendAssociative(StripCommas(dollars), ".", cents); }
      StripCommas(dollars) + "." + cents;
    }
  }

  lemma CentsGroupDollars(g: string)
    requires GroupShape(DollarCents, g)
    ensures AllDigits(StripCommas(g[..|g| - 3]))
  {
    var dollars := g[..|g| - 3];
    forall i | 0 <= i < |dollars|
      ensures IsDigit(dollars[i]) || dollars[i] == ','
    {
      assert InClass(dollars[i], DigitOrComma);
    }
    StripCommasDigits(dollars);
  }

  lemma CentsGroupSplit(g: string)
    requires GroupShape(DollarCents, g)
    ensures AllDigits(g[|g| - 2..])
    ensures StripCommas("." + g[|g| - 2..]) == "." + g[|g| - 2..]
    ensures g == g[..|g| - 3] + ("." + g[|g| - 2..])
  {
    var n := |g|;
    var tail := "." + g[n - 2..];
    assert tail == [g[n - 3], g[n - 2], g[n - 1]];
    StripCommasNoComma(tail);
    assert g[n - 3..] == tail;
    assert g == g[..n - 3] + g[n - 3..];
  }

  /** A price read from a `$d.dd` group is the group's dollars and cents. */
  lemma CentsPrice(price: Option<real>, g: string)
    requires GroupShape(DollarCents, g) && price == ParseFloat(StripCommas(g))
    ensures |g| >= 4 && AllDigits(StripCommas(g[..|g| - 3])) && AllDigits(g[|g| - 2..])
    ensures price == Some(DecimalValue(StripCommas(g[..|g| - 3]), g[|g| - 2..]))
  {
    CentsGroupValue(g);
  }

  lemma RegexPriceOfCents(scope: string)
    requires Search(DollarCents, scope).Some?
    ensures var g := GroupText(scope, Search(DollarCents, scope).value);
      GroupShape(DollarCents, g) && RegexPrice(scope) == ParseFloat(StripCommas(g))
  {
  }

  /** The group the `$d` search finds, when the `$d.dd` search finds none. */
  lemma WholeSearchPrice(scope: string)
    requires Search(DollarCents, scope).None? && Search(DollarWhole, scope).Some?
    ensures var g := GroupText(scope, Search(DollarWhole, scope).value);
      (forall i | 0 <= i < |g| :: IsDigit(g[i]) || g[i] == ',') &&
      AllDigits(StripCommas(g)) &&
      RegexPrice(scope) ==
        if StripCommas(g) == [] then None else Some(DigitsValue(StripCommas(g)) as real)
  {
    var g := GroupText(scope, Search(DollarWhole, scope).value);
    assert forall i | 0 <= i < |g| :: InClass(g[i], DigitOrComma);
    StripCommasDigits(g);
    if StripCommas(g) != [] {
      ParseFloatOfDigits(StripCommas(g));
    }
  }

  /**
   * The first `$d.dd` amount, with its dollars on [j, k) and its cents on [k + 1, k + 3),
   * is the price: it always converts, so rule 2 never falls through to rule 3.
   */
  lemma RegexPriceTwoDecimals(scope: string, a: nat, j: nat, k: nat)
    requires DollarCentsOccurs(scope, a, j, k)
    requires forall i: nat, j': nat, k': nat | i < a :: !DollarCentsOccurs(scope, i, j', k')
    ensures AllDigits(StripCommas(scope[j..k])) && AllDigits(scope[k + 1..k + 3])
    ensures RegexPrice(scope) == Some(DecimalValue(StripCommas(scope[j..k]), scope[k + 1..k + 3]))
  {
    CentsFirstFound(scope, a, j, k);
    RegexPriceOfCents(scope);
    CentsPriceAt(RegexPrice(scope), scope, j, k);
  }

  lemma CentsFirstFound(scope: string, a: nat, j: nat, k: nat)
    requires DollarCentsOccurs(scope, a, j, k)
    requires forall i: nat, j': nat, k': nat | i < a :: !DollarCentsOccurs(scope, i, j', k')
    ensures Search(DollarCents, scope) == Some(Match(a, Span(j, k + 3)))
    ensures GroupText(scope, Match(a, Span(j, k + 3))) == scope[j..k + 3]
  {
    forall i | 0 <= i < a
      ensures MatchAt(DollarCents, scope, i).None?
    {
      MatchDollarCentsOccurs(scope, i);
    }
    DollarCentsOccursMatch(scope, a, j, k);
    SearchFindsFirst(DollarCents, scope, 0, a, Span(j, k + 3));
  }

  /** The same, for a group given as the slice [j, k + 3) of s. */
  lemma CentsPriceAt(price: Option<real>, s: string, j: nat, k: nat)
    requires j <= k && k + 3 <= |s|
    requires GroupShape(DollarCents, s[j..k + 3]) && price == ParseFloat(StripCommas(s[j..k + 3]))
    ensures AllDigits(StripCommas(s[j..k])) && AllDigits(s[k + 1..k + 3])
    ensures price == Some(DecimalValue(StripCommas(s[j..k]), s[k + 1..k + 3]))
  {
    CentsGroupSlices(s, j, k);
    CentsPrice(price, s[j..k + 3]);
  }

  lemma CentsGroupSlices(s: string, j: nat, k: nat)
    requires j <= k && k + 3 <= |s|
    ensures var g := s[j..k + 3]; |g| >= 3 && g[..|g| - 3] == s[j..k] && g[|g| - 2..] == s[k + 1..k + 3]
  {
  }

  /**
   * With no `$d.dd` amount anywhere, the first `$d` amount, its group on [j, k), gives
   * whole dollars; one made only of commas fails to convert and the rule yields nothing.
   */
  lemma RegexPriceWholeDollars(scope: string, a: nat, j: nat, k: nat)
    requires forall i: nat, j': nat, k': nat :: !DollarCentsOccurs(scope, i, j', k')
    requires DollarWholeOccurs(scope, a, j, k)
    requires forall i: nat, j': nat, k': nat | i < a :: !DollarWholeOccurs(scope, i, j', k')
    ensures AllDigits(StripCommas(scope[j..k]))
    ensures RegexPrice(scope) ==
      if StripCommas(scope[j..k]) == [] then None else Some(DigitsValue(StripCommas(scope[j..k])) as real)
  {
    forall i: nat
      ensures MatchAt(DollarCents, scope, i).None?
    {
      MatchDollarCentsOccurs(scope, i);
    }
    forall i | 0 <= i < a
      ensures MatchAt(DollarWhole, scope, i).None?
    {
      MatchDollarWholeOccurs(scope, i);
    }
    DollarWholeOccursMatch(scope, a, j, k);
    SearchFindsFirst(DollarWhole, scope, 0, a, Span(j, k));
    assert GroupText(scope, Match(a, Span(j, k))) == scope[j..k];
    WholeSearchPrice(scope);
  }

  /** A scope with no `$` amount at all gives no regex price. */
  lemma RegexPriceWithoutAmount(scope: string)
    ensures (forall i: nat, j: nat, k: nat :: !DollarWholeOccurs(scope, i, j, k)) ==>
      RegexPrice(scope) == None
  {
    forall i: nat
      ensures (forall j: nat, k: nat :: !DollarWholeOccurs(scope, i, j, k)) ==>
        MatchAt(DollarWhole, scope, i).None? && MatchAt(DollarCents, scope, i).None?
    {
      MatchDollarWholeOccurs(scope, i);
      MatchDollarCentsOccurs(scope, i);
      if MatchAt(DollarCents, scope, i).Some? {
        var g := MatchAt(DollarCents, scope, i).value;
        CentsOccursWhole(scope, i, g.start, g.end - 3);
      }
    }
  }

  /** "Now $1,299.99" is read by rule 2 as 1299.99. */
  lemma RegexPriceExample()
    ensures RegexPrice("Now $1,299.99") == Some(1299.99)
  {
    NowPriceOccurs();
    NowPriceFirst();
    RegexPriceTwoDecimals("Now $1,299.99", 4, 5, 10);
    NowPriceValue();
  }

  lemma NowPriceOccurs()
    ensures var s := "Now $1,299.99";
      DollarCentsOccurs(s, 4, 5, 10) && s[5..10] == "1,299" && s[11..13] == "99"
  {
    var s := "Now $1,299.99";
    assert s[5..10] == "1,299" && s[11..13] == "99";
    assert forall m | 5 <= m < 10 :: s[m] == s[5..10][m - 5];
  }

  lemma NowPriceFirst()
    ensures forall i: nat, j: nat, k: nat | i < 4 :: !DollarCentsOccurs("Now $1,299.99", i, j, k)
  {
    var s := "Now $1,299.99";
    assert s[..4] == "Now ";
    forall i: nat, j: nat, k: nat | i < 4
      ensures !DollarCentsOccurs(s, i, j, k)
    {
      assert s[..4][i] == s[i];
    }
  }

  lemma NowPriceValue()
    ensures DecimalValue(StripCommas("1,299"), "99") == 1299.99
  {
    assert "1" + "," + "299" == "1,299" && "1" + "299" == "1299";
    StripCommasGrouped("1", "299");
    NowDollarsValue();
    NowCentsValue();
    assert Pow10(2) == 100;
  }

  lemma NowDollarsValue()
    ensures DigitsValue("1299") == 1299
  {
    assert "1299"[..3] == "129";
    assert "129"[..2] == "12";
    assert "12"[..1] == "1";
    assert "1"[..0] == [];
  }

  lemma NowCentsValue()
    ensures DigitsValue("99") == 99
  {
    assert "99"[..1] == "9";
    assert "9"[..0] == [];
  }

  /** Rule 4: the `data-price` attribute, when present and non-empty. */
  function AttributePrice(dataPrice: Option<string>): (r: Option<real>)
    ensures r.Some? ==> dataPrice.Some? && dataPrice.value != [] && r.value >= 0.0
  {
    if dataPrice.None? || dataPrice.value == [] then None else ParseFloat(dataPrice.value)
  }

  /** A `data-price` of the form "W.F" on digit strings reads as W plus F scaled by its width. */
  lemma AttributePriceOfDecimal(whole: string, frac: string)
    requires AllDigits(whole) && AllDigits(frac) && |whole| + |frac| >= 1
    ensures AttributePrice(Some(whole + "." + frac)) == Some(DecimalValue(whole, frac))
  {
    ParseFloatOfDecimal(whole, frac);
  }

  /** With neither the strong/sup rule nor a `$` amount, `data-price="249.5"` gives 249.5. */
  lemma AttributePriceExample(b: Block)
    requires SplicedPrice(b.priceCurrent).None?
    requires forall i: nat, j: nat, k: nat :: !DollarWholeOccurs(PriceScope(b), i, j, k)
    requires b.dataPrice == Some("249.5")
    ensures PriceFromBlock(b) == Some(249.5)
  {
    RegexPriceWithoutAmount(PriceScope(b));
    AttributePriceOfDecimal("249", "5");
    assert "249" + "." + "5" == "249.5";
    AttributeExampleValue();
  }

  lemma AttributeExampleValue()
    ensures DecimalValue("249", "5") == 249.5
  {
    assert "249"[..2] == "24" && "24"[..1] == "2" && "2"[..0] == [] && "5"[..0] == [];
    assert DigitsValue("249") == 249 && DigitsValue("5") == 5 && Pow10(1) == 10;
  }

  /** `parse_price_from_block`: the first of the four rules that yields a number. */
  function PriceFromBlock(b: Block): (price: Option<real>)
    ensures price.Some? ==> price.value >= 0.0
    ensures SplicedPrice(b.priceCurrent).Some? ==> price == SplicedPrice(b.priceCurrent)
    ensures SplicedPrice(b.priceCurrent).None? && RegexPrice(PriceScope(b)).Some? ==>
      price == RegexPrice(PriceScope(b))
    ensures SplicedPrice(b.priceCurrent).None? && RegexPrice(PriceScope(b)).None? ==>
      price == AttributePrice(b.dataPrice)
    ensures price.None? <==>
      SplicedPrice(b.priceCurrent).None? && RegexPrice(PriceScope(b)).None? &&
      AttributePrice(b.dataPrice).None?
  {
    var spliced := SplicedPrice(b.priceCurrent);
    if spliced.Some? then spliced
    else
      var found := RegexPrice(PriceScope(b));
      if found.Some? then found else AttributePrice(b.dataPrice)
  }

  // ---------------------------------------------------------------------
  // Rating and review count
  // ---------------------------------------------------------------------

  /** "Rated X out" in the aria-label, any case. */
  function LabelRating(ariaLabel: Option<string>): Option<real> {
    if ariaLabel.None? || ariaLabel.value == [] then None
    else match Search(RatedOut, ariaLabel.value)
      case None => None
      case Some(m) => ParseFloat(GroupText(ariaLabel.value, m))
  }

  /** The digit of the first `rating-N` in the space-joined class list. */
  function ClassRating(classes: seq<string>): (r: Option<real>)
    ensures r.Some? ==> 0.0 <= r.value <= 9.0 && r.value == r.value.Floor as real
  {
    var cls := Join(classes, " ");
    match Search(RatingClass, cls)
    case None => None
    case Some(m) =>
      var g := GroupText(cls, m);
      assert AllDigits(g);
      Some(DigitValue(g[0]) as real)
  }

  /** The rating part of `parse_rating_and_reviews`. */
  function RatingFromIcon(icon: Option<RatingIcon>): (rating: Option<real>)
    ensures icon.None? ==> rating.None?
    ensures rating.Some? ==> rating.value >= 0.0
    ensures icon.Some? && LabelRating(icon.value.ariaLabel).Some? ==>
      rating == LabelRating(icon.value.ariaLabel)
    ensures icon.Some? && LabelRating(icon.value.ariaLabel).None? ==>
      rating == ClassRating(icon.value.classes)
  {
    if icon.None? then None
    else
      var fromLabel := LabelRating(icon.value.ariaLabel);
      if fromLabel.Some? then fromLabel else ClassRating(icon.value.classes)
  }

  /**
   * The first "Rated … out" in the label, in any case, starting at a with its
   * number on [j, k), yields `float` of that number.
   */
  lemma LabelRatingOfFirst(s: string, a: nat, j: nat, k: nat, l: nat)
    requires RatedOccurs(s, a, j, k, l)
    requires forall i: nat, j': nat, k': nat, l': nat | i < a :: !RatedOccurs(s, i, j', k', l')
    ensures LabelRating(Some(s)) == ParseFloat(s[j..k])
  {
    forall i | 0 <= i < a
      ensures MatchAt(RatedOut, s, i).None?
    {
      MatchRatedOccurs(s, i);
    }
    RatedOccursMatch(s, a, j, k, l);
    SearchFindsFirst(RatedOut, s, 0, a, Span(j, k));
    assert GroupText(s, Match(a, Span(j, k))) == s[j..k];
  }

  /** A label with no "Rated … out" in it gives no label rating. */
  lemma LabelRatingWithoutPhrase(s: string)
    ensures (forall a: nat, j: nat, k: nat, l: nat :: !RatedOccurs(s, a, j, k, l)) ==>
      LabelRating(Some(s)) == None
  {
    forall a: nat
      ensures (forall j: nat, k: nat, l: nat :: !RatedOccurs(s, a, j, k, l)) ==>
        MatchAt(RatedOut, s, a).None?
    {
      MatchRatedOccurs(s, a);
    }
  }

  /** Newegg's label "Rated 4.5 out of 5" is 4.5. */
  lemma LabelRatingExample()
    ensures LabelRating(Some("Rated 4.5 out of 5")) == Some(4.5)
  {
    var s := "Rated 4.5 out of 5";
    assert FoldedAt(s, 0, "rated") by {
      assert LowerChar(s[0]) == 'r';
    }
    assert FoldedAt(s, 10, "out");
    assert IsSpace(s[5]) && IsSpace(s[9]);
    assert s[6..9] == "4.5";
    assert RatedOccurs(s, 0, 6, 9, 10);
    LabelRatingOfFirst(s, 0, 6, 9, 10);
    ParseFloatExample();
  }

  /** The same phrase later in the label, in lower case, is found just as well. */
  lemma LabelRatingLaterExample()
    ensures LabelRating(Some("Top pick, rated 4.5 out of 5")) == Some(4.5)
  {
    var s := "Top pick, rated 4.5 out of 5";
    LaterLabelPhrase();
    LaterLabelFirst();
    LabelRatingOfFirst(s, 10, 16, 19, 20);
    ParseFloatExample();
  }

  lemma LaterLabelPhrase()
    ensures var s := "Top pick, rated 4.5 out of 5";
      RatedOccurs(s, 10, 16, 19, 20) && s[16..19] == "4.5"
  {
    var s := "Top pick, rated 4.5 out of 5";
    LaterLabelWords();
    assert s[16] == '4' && s[17] == '.' && s[18] == '5';
    assert s[16..19] == "4.5";
    assert IsSpace(s[15]) && IsSpace(s[19]);
  }

  lemma LaterLabelWords()
    ensures var s := "Top pick, rated 4.5 out of 5";
      FoldedAt(s, 10, "rated") && FoldedAt(s, 20, "out")
  {
    var s := "Top pick, rated 4.5 out of 5";
    assert s[10..15] == "rated" && s[20..23] == "out";
  }

  lemma LaterLabelFirst()
    ensures var s := "Top pick, rated 4.5 out of 5";
      forall i: nat, j: nat, k: nat, l: nat | i < 10 :: !RatedOccurs(s, i, j, k, l)
  {
    var s := "Top pick, rated 4.5 out of 5";
    assert s[..10] == "Top pick, ";
    forall i: nat, j: nat, k: nat, l: nat | i < 10
      ensures !RatedOccurs(s, i, j, k, l)
    {
      assert s[..10][i] == s[i];
      assert 'r' !in s[..10] && 'R' !in s[..10];
      assert LowerChar(s[i + 0]) != "rated"[0];
    }
  }

  lemma ParseFloatExample()
    ensures ParseFloat("4.5") == Some(4.5)
  {
    ParseFloatOfDecimal("4", "5");
    assert "4" + "." + "5" == "4.5";
    assert "4"[..0] == [] && "5"[..0] == [];
    assert DecimalValue("4", "5") == 4.5;
  }

  /** The first `rating-N` in the space-joined class list yields N. */
  lemma ClassRatingOfToken(classes: seq<string>, a: nat)
    requires RatingOccurs(Join(classes, " "), a)
    requires forall i: nat | i < a :: !RatingOccurs(Join(classes, " "), i)
    ensures ClassRating(classes) == Some(DigitValue(Join(classes, " ")[a + 7]) as real)
  {
    var cls := Join(classes, " ");
    forall i | 0 <= i < a
      ensures MatchAt(RatingClass, cls, i).None?
    {
      RatingOccursMatch(cls, i);
    }
    RatingOccursMatch(cls, a);
    SearchFindsFirst(RatingClass, cls, 0, a, Span(a + 7, a + 8));
    assert GroupText(cls, Match(a, Span(a + 7, a + 8)))[0] == cls[a + 7];
  }

  /**
   * The class `rating-N` after classes with no '-' in them (such as the "rating"
   * class the icon is selected by) yields N.
   */
  lemma ClassRatingAfter(pre: seq<string>, d: char, rest: seq<string>)
    requires IsDigit(d)
    requires forall c | c in pre :: '-' !in c
    ensures ClassRating(pre + ["rating-" + [d]] + rest) == Some(DigitValue(d) as real)
  {
    var w := "rating-" + [d];
    var classes := pre + [w] + rest;
    assert classes == pre + ([w] + rest);
    JoinAfter(pre, [w] + rest, " ");
    TerminatedAvoids(pre, " ", '-');
    var tail := Join([w] + rest, " ");
    assert tail[..8] == w by {
      if rest != [] {
        assert ([w] + rest)[1..] == rest;
      }
    }
    TokenAfter(Terminated(pre, " "), tail, d);
    ClassRatingOfToken(classes, |Terminated(pre, " ")|);
  }

  /** After text with no '-' in it, a leading `rating-N` is the first one. */
  lemma TokenAfter(head: string, tail: string, d: char)
    requires IsDigit(d) && '-' !in head && |tail| >= 8 && tail[..8] == "rating-" + [d]
    ensures RatingOccurs(head + tail, |head|) && (head + tail)[|head| + 7] == d
    ensures forall i: nat | i < |head| :: !RatingOccurs(head + tail, i)
  {
    var cls, p := head + tail, |head|;
    assert cls[p..p + 8] == tail[..8];
    assert cls[p..p + 7] == "rating-";
    forall i: nat | i < p
      ensures !RatingOccurs(cls, i)
    {
      if i + 8 <= |cls| {
        assert cls[i..i + 7][6] == cls[i + 6];
        if i + 6 < p {
          assert cls[i + 6] == head[i + 6];
        } else {
          assert cls[i + 6] == tail[..8][i + 6 - p];
        }
      }
    }
  }

  /** No `rating-N` occurs anywhere in the text. */
  predicate NoRatingToken(cls: string) {
    forall i | 0 <= i < |cls| :: !RatingOccurs(cls, i)
  }

  /** A class list gives no class rating exactly when no `rating-N` occurs in it, joined. */
  lemma ClassRatingAbsent(classes: seq<string>)
    ensures ClassRating(classes).None? <==> NoRatingToken(Join(classes, " "))
  {
    var cls := Join(classes, " ");
    forall i: nat
      ensures MatchAt(RatingClass, cls, i).Some? <==> RatingOccurs(cls, i)
    {
      RatingOccursMatch(cls, i);
    }
  }

  /** An icon with neither the "Rated … out" phrase in its label nor a `rating-N` class
      gives no rating. */
  lemma RatingFromIconAbsent(icon: RatingIcon)
    ensures
      && (icon.ariaLabel.None? ||
          forall a: nat, j: nat, k: nat, l: nat :: !RatedOccurs(icon.ariaLabel.value, a, j, k, l))
      && NoRatingToken(Join(icon.classes, " "))
      ==> RatingFromIcon(Some(icon)) == None
  {
    if icon.ariaLabel.Some? {
      LabelRatingWithoutPhrase(icon.ariaLabel.value);
    }
    ClassRatingAbsent(icon.classes);
  }

  /** The usual list of a rating icon, "rating" then "rating-N", yields N. */
  lemma ClassRatingOfUsualList(d: char, rest: seq<string>)
    requires IsDigit(d)
    ensures ClassRating(["rating", "rating-" + [d]] + rest) == Some(DigitValue(d) as real)
  {
    assert ["rating", "rating-" + [d]] + rest == ["rating"] + ["rating-" + [d]] + rest;
    ClassRatingAfter(["rating"], d, rest);
  }

  /** The review-count part of `parse_rating_and_reviews`: the first "(d,ddd)" group,
      commas removed. A group made only of commas makes `int("")` raise. */
  function ReviewCount(text: Option<string>): (r: Result<Option<nat>, ParseError>)
    ensures text.None? ==> r == Ok(None)
  {
    if text.None? then Ok(None)
    else match Search(ParenCount, text.value)
      case None => Ok(None)
      case Some(m) =>
        var g := GroupText(text.value, m);
        assert forall i | 0 <= i < |g| :: InClass(g[i], DigitOrComma);
        StripCommasDigits(g);
        var digits := StripCommas(g);
        if digits == [] then Err(ReviewCountNotInteger) else Ok(Some(DigitsValue(digits)))
  }

  /** Review text with no "(digits and commas)" group gives no count, and only such text. */
  lemma ReviewCountWithoutGroup(text: string)
    ensures ReviewCount(Some(text)) == Ok(None) <==>
      forall i: nat, k: nat :: !ParenOccurs(text, i, k)
  {
    if forall i: nat, k: nat :: !ParenOccurs(text, i, k) {
      forall i: nat
        ensures MatchAt(ParenCount, text, i).None?
      {
        MatchParenOccurs(text, i);
      }
    } else {
      var i: nat, k: nat :| ParenOccurs(text, i, k);
      ParenOccursMatch(text, i, k);
    }
  }

  /** The first group `(g)` of the review text is the one read, commas removed; a group
      of commas alone raises. */
  lemma ReviewCountOfGroup(s: string, a: nat, k: nat)
    requires ParenOccurs(s, a, k)
    requires forall i: nat, k': nat | i < a :: !ParenOccurs(s, i, k')
    ensures AllDigits(StripCommas(s[a + 1..k]))
    ensures ReviewCount(Some(s)) ==
      if StripCommas(s[a + 1..k]) == [] then Err(ReviewCountNotInteger)
      else Ok(Some(DigitsValue(StripCommas(s[a + 1..k]))))
  {
    forall i | 0 <= i < a
      ensures MatchAt(ParenCount, s, i).None?
    {
      MatchParenOccurs(s, i);
    }
    ParenOccursMatch(s, a, k);
    SearchFindsFirst(ParenCount, s, 0, a, Span(a + 1, k));
    var g := s[a + 1..k];
    assert GroupText(s, Match(a, Span(a + 1, k))) == g;
    assert forall m | 0 <= m < |g| :: g[m] == s[a + 1 + m];
    StripCommasDigits(g);
  }

  /** "(12,345)" reads as 12345. */
  lemma ReviewCountExample()
    ensures ReviewCount(Some("(12,345)")) == Ok(Some(12345))
  {
    ReviewGroupOccurs();
    ReviewCountOfGroup("(12,345)", 0, 7);
    ReviewDigitsExample();
  }

  lemma ReviewGroupOccurs()
    ensures ParenOccurs("(12,345)", 0, 7) && "(12,345)"[1..7] == "12,345"
  {
    var s := "(12,345)";
    assert s[1..7] == "12,345";
  }

  lemma ReviewDigitsExample()
    ensures StripCommas("12,345") == "12345" && DigitsValue("12345") == 12345
  {
    assert "12" + "," + "345" == "12,345" && "12" + "345" == "12345";
    StripCommasGrouped("12", "345");
    DigitsValueExample();
  }

  lemma DigitsValueExample()
    ensures AllDigits("12345") && DigitsValue("12345") == 12345
  {
    assert "12345"[..4] == "1234" && "1234"[..3] == "123" && "123"[..2] == "12" && "12"[..1] == "1";
    assert "1"[..0] == [];
  }

  // ---------------------------------------------------------------------
  // Brand, page count, one block
  // ---------------------------------------------------------------------

  /** The brand image's non-empty title, else the title's first whitespace token. */
  function BrandOf(brandTitle: Option<string>, title: string): (r: Result<string, ParseError>)
    ensures r.Ok? ==> r.value != []
    ensures brandTitle.Some? && brandTitle.value != [] ==> r == Ok(brandTitle.value)
    ensures r.Err? ==> r == Err(TitleHasNoToken)
    ensures r.Err? <==>
      (brandTitle.None? || brandTitle.value == []) && forall k | 0 <= k < |title| :: IsSpace(title[k])
    ensures r.Ok? && (brandTitle.None? || brandTitle.value == []) ==>
      (forall k | 0 <= k < |r.value| :: !IsSpace(r.value[k])) &&
      exists i :: LeadingToken(title, r.value, i)
  {
    if brandTitle.Some? && brandTitle.value != [] then Ok(brandTitle.value)
    else match FirstToken(title)
      case None => Err(TitleHasNoToken)
      case Some(t) => Ok(t)
  }

  /** The number after "of" and whitespace in the pagination summary. */
  function TotalPages(pageTitle: Option<string>): Option<nat> {
    if pageTitle.None? then None
    else match Search(OfPages, pageTitle.value)
      case None => None
      case Some(m) =>
        var g := GroupText(pageTitle.value, m);
        assert AllDigits(g);
        Some(DigitsValue(g))
  }

  /** The first "of", whitespace and digits in the summary: its digits are the page count. */
  lemma TotalPagesOfFirst(s: string, a: nat, j: nat, k: nat)
    requires OfOccurs(s, a, j, k)
    requires forall i: nat, j': nat, k': nat | i < a :: !OfOccurs(s, i, j', k')
    ensures AllDigits(s[j..k])
    ensures TotalPages(Some(s)) == Some(DigitsValue(s[j..k]))
  {
    forall i | 0 <= i < a
      ensures MatchAt(OfPages, s, i).None?
    {
      MatchOfOccurs(s, i);
    }
    OfOccursMatch(s, a, j, k);
    SearchFindsFirst(OfPages, s, 0, a, Span(j, k));
    assert GroupText(s, Match(a, Span(j, k))) == s[j..k];
  }

  /** A summary gives no page count exactly when no "of", whitespace and digits occur in it. */
  lemma TotalPagesAbsent(text: string)
    ensures TotalPages(Some(text)) == None <==>
      forall a: nat, j: nat, k: nat :: !OfOccurs(text, a, j, k)
  {
    if forall a: nat, j: nat, k: nat :: !OfOccurs(text, a, j, k) {
      forall i: nat
        ensures MatchAt(OfPages, text, i).None?
      {
        MatchOfOccurs(text, i);
      }
    } else {
      var a: nat, j: nat, k: nat :| OfOccurs(text, a, j, k);
      OfOccursMatch(text, a, j, k);
    }
  }

  /** No "of" in the summary: no page count. */
  lemma TotalPagesWithoutOf(text: string)
    requires forall i | 0 <= i < |text| - 1 :: !(text[i] == 'o' && text[i + 1] == 'f')
    ensures TotalPages(Some(text)) == None
  {
    TotalPagesAbsent(text);
  }

  /** The pieces of `pre + "of" + gap + num + post`, by position. */
  lemma OfPagesSlices(s: string, pre: string, gap: string, num: string, post: string)
    requires s == pre + "of" + gap + num + post
    ensures var a := |pre|; var j := a + 2 + |gap|; var k := j + |num|;
      k <= |s| && s[a] == 'o' && s[a + 1] == 'f' && s[j..k] == num &&
      (forall i | 0 <= i < a :: s[i] == pre[i]) &&
      (forall m | a + 2 <= m < j :: s[m] == gap[m - (a + 2)]) &&
      (k < |s| ==> s[k] == post[0])
  {
    var a := |pre|;
    var j := a + 2 + |gap|;
    var k := j + |num|;
    ConcatParts5(pre, "of", gap, num, post);
    assert s[a..a + 2][0] == s[a] && s[a..a + 2][1] == s[a + 1];
    forall i | 0 <= i < a ensures s[i] == pre[i] {
      assert s[..a][i] == s[i];
    }
    forall m | a + 2 <= m < j ensures s[m] == gap[m - (a + 2)] {
      assert s[a + 2..j][m - (a + 2)] == s[m];
    }
    assert k < |s| ==> s[k] == s[k..][0];
  }

  /** A summary "... of N ..." whose text before "of" holds no other "of" reports N. */
  lemma TotalPagesOfSummary(pre: string, gap: string, n: nat, post: string)
    requires forall i | 0 <= i < |pre| - 1 :: !(pre[i] == 'o' && pre[i + 1] == 'f')
    requires |gap| >= 1 && forall m | 0 <= m < |gap| :: IsSpace(gap[m])
    requires post == [] || !IsDigit(post[0])
    ensures TotalPages(Some(pre + "of" + gap + NatToString(n) + post)) == Some(n)
  {
    var num := NatToString(n);
    var s := pre + "of" + gap + num + post;
    var a := |pre|;
    var j := a + 2 + |gap|;
    var k := j + |num|;
    NatToStringRoundTrip(n);
    OfPagesSlices(s, pre, gap, num, post);
    SummaryOccurs(s, a, j, k);
    SummaryFirst(s, pre);
    TotalPagesOfFirst(s, a, j, k);
  }

  lemma SummaryOccurs(s: string, a: nat, j: nat, k: nat)
    requires a + 2 < j < k <= |s| && s[a] == 'o' && s[a + 1] == 'f'
    requires forall m | a + 2 <= m < j :: IsSpace(s[m])
    requires AllDigits(s[j..k]) && (k == |s| || !IsDigit(s[k]))
    ensures OfOccurs(s, a, j, k)
  {
    assert forall m | j <= m < k :: s[m] == s[j..k][m - j];
  }

  /** Text with no "of" in it, then 'o': no occurrence starts inside the text. */
  lemma SummaryFirst(s: string, pre: string)
    requires |pre| < |s| && s[|pre|] == 'o' && forall i | 0 <= i < |pre| :: s[i] == pre[i]
    requires forall i | 0 <= i < |pre| - 1 :: !(pre[i] == 'o' && pre[i + 1] == 'f')
    ensures forall i: nat, j: nat, k: nat | i < |pre| :: !OfOccurs(s, i, j, k)
  {
    forall i: nat, j: nat, k: nat | i < |pre|
      ensures !OfOccurs(s, i, j, k)
    {
      if i + 1 < |pre| {
        assert s[i] == pre[i] && s[i + 1] == pre[i + 1];
      }
    }
  }

  /** "Showing 1-36 of 120" reports 120 pages, the "of" coming after other text. */
  lemma TotalPagesExample()
    ensures TotalPages(Some("Showing 1-36 of 120")) == Some(120)
  {
    var s := "Showing 1-36 of 120";
    ShowingOccurs();
    ShowingFirst();
    TotalPagesOfFirst(s, 13, 16, 19);
    PageCountDigits();
  }

  lemma PageCountDigits()
    ensures DigitsValue("120") == 120
  {
    assert "120"[..2] == "12" && "12"[..1] == "1" && "1"[..0] == [];
  }

  lemma ShowingOccurs()
    ensures OfOccurs("Showing 1-36 of 120", 13, 16, 19) && "Showing 1-36 of 120"[16..19] == "120"
  {
    var s := "Showing 1-36 of 120";
    assert s[13] == 'o' && s[14] == 'f' && IsSpace(s[15]);
    assert s[16..19] == "120";
  }

  lemma ShowingFirst()
    ensures forall i: nat, j: nat, k: nat | i < 13 :: !OfOccurs("Showing 1-36 of 120", i, j, k)
  {
    var s := "Showing 1-36 of 120";
    assert s[..14] == "Showing 1-36 o";
    forall i: nat, j: nat, k: nat | i < 13
      ensures !OfOccurs(s, i, j, k)
    {
      assert s[..14][i + 1] == s[i + 1];
      assert s[i + 1] in s[..14];
    }
  }

  /** One titled block: the record the loop body of `parse_search_page` appends, or the
      exception it raises (the review count is read before the brand). */
  function ParseBlock(t: TitleLink, b: Block): (r: Result<Product, ParseError>)
    ensures r.Err? <==> ReviewCount(b.reviews).Err? || BrandOf(b.brandTitle, t.text).Err?
    ensures ReviewCount(b.reviews).Err? ==> r == Err(ReviewCountNotInteger)
    ensures ReviewCount(b.reviews).Ok? && BrandOf(b.brandTitle, t.text).Err? ==> r == Err(TitleHasNoToken)
    ensures r.Ok? ==>
      r.value.title == t.text && r.value.brand != [] &&
      r.value.productUrl == t.href.GetOr("") && r.value.shipping == b.ship.GetOr("")
    ensures r.Ok? ==>
      r.value.price == PriceFromBlock(b) && r.value.rating == RatingFromIcon(b.rating) &&
      ReviewCount(b.reviews).Ok? && r.value.reviewCount == ReviewCount(b.reviews).value &&
      BrandOf(b.brandTitle, t.text).Ok? && r.value.brand == BrandOf(b.brandTitle, t.text).value
  {
    var reviews := ReviewCount(b.reviews);
    if reviews.Err? then Err(reviews.error)
    else
      var brand := BrandOf(b.brandTitle, t.text);
      if brand.Err? then Err(brand.error)
      else Ok(Product(t.text, t.href.GetOr(""), brand.value, PriceFromBlock(b),
                      RatingFromIcon(b.rating), reviews.value, b.ship.GetOr("")))
  }

  // ---------------------------------------------------------------------
  // A page
  // ---------------------------------------------------------------------

  /** Prefixes `done` to a successful result; an error stays the error. */
  function Prepend(done: seq<Product>, rest: Result<seq<Product>, ParseError>): Result<seq<Product>, ParseError> {
    if rest.Ok? then Ok(done + rest.value) else rest
  }

  /** The records of a sequence of blocks, in block order; untitled blocks are skipped
      and the first block that raises decides the error. */
  function ParseBlocks(bs: seq<Block>): (r: Result<seq<Product>, ParseError>)
    ensures r.Ok? ==> |r.value| <= |bs|
    ensures r.Ok? ==> forall i | 0 <= i < |r.value| :: r.value[i].brand != []
  {
    if bs == [] then Ok([])
    else if bs[0].title.None? then ParseBlocks(bs[1..])
    else match ParseBlock(bs[0].title.value, bs[0])
      case Err(e) => Err(e)
      case Ok(p) => Prepend([p], ParseBlocks(bs[1..]))
  }

  /** The blocks that have an `a.item-title`, in order. */
  function Titled(bs: seq<Block>): (ts: seq<Block>)
    ensures |ts| <= |bs|
    ensures forall i | 0 <= i < |ts| :: ts[i].title.Some?
  {
    if bs == [] then []
    else (if bs[0].title.Some? then [bs[0]] else []) + Titled(bs[1..])
  }

  predicate BlockParses(b: Block) {
    b.title.None? || ParseBlock(b.title.value, b).Ok?
  }

  /** When no titled block raises, the page parses, with one record per titled block. */
  lemma {:induction false} ParseBlocksShape(bs: seq<Block>)
    requires forall i {:trigger BlockParses(bs[i])} | 0 <= i < |bs| :: BlockParses(bs[i])
    ensures ParseBlocks(bs).Ok? && |ParseBlocks(bs).value| == |Titled(bs)|
  {
    if bs != [] {
      var tail := bs[1..];
      assert forall i | 0 <= i < |tail| :: tail[i] == bs[i + 1];
      ParseBlocksShape(tail);
      assert BlockParses(bs[0]);
    }
  }

  /** The i-th record is the record of the i-th titled block. */
  lemma {:induction false} ParseBlocksRecordAt(bs: seq<Block>, i: nat)
    requires forall j {:trigger BlockParses(bs[j])} | 0 <= j < |bs| :: BlockParses(bs[j])
    requires i < |Titled(bs)|
    ensures ParseBlocks(bs).Ok? && i < |ParseBlocks(bs).value|
    ensures ParseBlock(Titled(bs)[i].title.value, Titled(bs)[i]) == Ok(ParseBlocks(bs).value[i])
    decreases |bs|, 1
  {
    ParseBlocksShape(bs);
    assert BlockParses(bs[0]);
    TailParses(bs);
    if bs[0].title.None? {
      ParseBlocksRecordAt(bs[1..], i);
      UntitledFirst(bs);
    } else if i == 0 {
      ParseBlocksShape(bs[1..]);
      TitledFirst(bs);
    } else {
      LaterRecord(bs, i);
    }
  }

  /** Every block of the tail parses when every block does. */
  lemma TailParses(bs: seq<Block>)
    requires bs != []
    requires forall j {:trigger BlockParses(bs[j])} | 0 <= j < |bs| :: BlockParses(bs[j])
    ensures forall j {:trigger BlockParses(bs[1..][j])} | 0 <= j < |bs[1..]| :: BlockParses(bs[1..][j])
  {
    forall j | 0 <= j < |bs[1..]| ensures BlockParses(bs[1..][j]) {
      assert bs[1..][j] == bs[j + 1];
    }
  }

  /** Behind a titled first block, record i is record i - 1 of the rest. */
  lemma {:induction false} LaterRecord(bs: seq<Block>, i: nat)
    requires forall j {:trigger BlockParses(bs[j])} | 0 <= j < |bs| :: BlockParses(bs[j])
    requires bs != [] && bs[0].title.Some? && 0 < i < |Titled(bs)|
    ensures ParseBlocks(bs).Ok? && i < |ParseBlocks(bs).value|
    ensures ParseBlock(Titled(bs)[i].title.value, Titled(bs)[i]) == Ok(ParseBlocks(bs).value[i])
    decreases |bs|, 0
  {
    assert BlockParses(bs[0]);
    TailParses(bs);
    ParseBlocksRecordAt(bs[1..], i - 1);
    TitledFirst(bs);
    var ts, rs := Titled(bs[1..]), ParseBlocks(bs[1..]).value;
    ConsShift(bs[0], ts, ParseBlock(bs[0].title.value, bs[0]).value, rs, i);
  }

  /** Index i of a sequence with one element put in front is index i - 1 of the rest. */
  lemma ConsShift<A, B>(x: A, xs: seq<A>, y: B, ys: seq<B>, i: nat)
    requires 0 < i && i - 1 < |xs| && i - 1 < |ys|
    ensures ([x] + xs)[i] == xs[i - 1] && ([y] + ys)[i] == ys[i - 1]
  {
  }

  /** An untitled first block adds neither a record nor a titled block. */
  lemma UntitledFirst(bs: seq<Block>)
    requires bs != [] && bs[0].title.None?
    ensures ParseBlocks(bs) == ParseBlocks(bs[1..]) && Titled(bs) == Titled(bs[1..])
  {
  }

  /** A titled first block that parses puts its record in front of the rest. */
  lemma TitledFirst(bs: seq<Block>)
    requires bs != [] && bs[0].title.Some? && ParseBlock(bs[0].title.value, bs[0]).Ok?
    requires ParseBlocks(bs[1..]).Ok?
    ensures ParseBlocks(bs) == Ok([ParseBlock(bs[0].title.value, bs[0]).value] + ParseBlocks(bs[1..]).value)
    ensures Titled(bs) == [bs[0]] + Titled(bs[1..])
  {
  }

  /** When no titled block raises, the records are exactly the titled blocks' records,
      one per titled block and in the same order. */
  lemma ParseBlocksRecords(bs: seq<Block>)
    requires forall i {:trigger BlockParses(bs[i])} | 0 <= i < |bs| :: BlockParses(bs[i])
    ensures ParseBlocks(bs).Ok?
    ensures |ParseBlocks(bs).value| == |Titled(bs)|
    ensures forall i | 0 <= i < |Titled(bs)| ::
      ParseBlock(Titled(bs)[i].title.value, Titled(bs)[i]) == Ok(ParseBlocks(bs).value[i])
  {
    ParseBlocksShape(bs);
    forall i | 0 <= i < |Titled(bs)|
      ensures ParseBlock(Titled(bs)[i].title.value, Titled(bs)[i]) == Ok(ParseBlocks(bs).value[i])
    {
      ParseBlocksRecordAt(bs, i);
    }
  }

  /** A titled block that raises makes the whole page raise, with the error of the first
      such block. */
  lemma {:induction false} ParseBlocksFirstError(bs: seq<Block>, i: nat)
    requires i < |bs| && !BlockParses(bs[i])
    requires forall j | 0 <= j < i :: BlockParses(bs[j])
    ensures ParseBlocks(bs) == Err(ParseBlock(bs[i].title.value, bs[i]).error)
  {
    if i > 0 {
      assert forall j | 0 <= j < i - 1 :: bs[1..][j] == bs[j + 1];
      ParseBlocksFirstError(bs[1..], i - 1);
      assert BlockParses(bs[0]);
    }
  }

  /** One step of the block loop: an untitled block adds nothing, a raising block ends the
      page with its error, a parsed block is appended after what is already collected. */
  lemma ParseBlocksStep(bs: seq<Block>, i: nat, done: seq<Product>)
    requires i < |bs|
    ensures bs[i].title.None? ==> ParseBlocks(bs[i..]) == ParseBlocks(bs[i + 1..])
    ensures bs[i].title.Some? && ParseBlock(bs[i].title.value, bs[i]).Err? ==>
      ParseBlocks(bs[i..]) == Err(ParseBlock(bs[i].title.value, bs[i]).error)
    ensures bs[i].title.Some? && ParseBlock(bs[i].title.value, bs[i]).Ok? ==>
      Prepend(done, ParseBlocks(bs[i..])) ==
      Prepend(done + [ParseBlock(bs[i].title.value, bs[i]).value], ParseBlocks(bs[i + 1..]))
  {
    assert bs[i..][0] == bs[i] && bs[i..][1..] == bs[i + 1..];
    var rest := ParseBlocks(bs[i + 1..]);
    if bs[i].title.Some? && ParseBlock(bs[i].title.value, bs[i]).Ok? && rest.Ok? {
      var p := ParseBlock(bs[i].title.value, bs[i]).value;
      assert done + ([p] + rest.value) == (done + [p]) + rest.value;
    }
  }

  /** `parse_search_page`: the page count from the summary, and the records appended
      block by block. */
  method ParseSearchPage(page: Page) returns (records: Result<seq<Product>, ParseError>, totalPages: Option<nat>)
    ensures totalPages == TotalPages(page.pageTitle)
    ensures records == ParseBlocks(page.blocks)
  {
    totalPages := TotalPages(page.pageTitle);
    var items := page.blocks;
    var results: seq<Product> := [];
    var i := 0;
    assert items[i..] == items;
    assert Prepend(results, ParseBlocks(items)) == ParseBlocks(items) by {
      var r := ParseBlocks(items);
      if r.Ok? {
        assert results + r.value == r.value;
      }
    }
    while i < |items|
      invariant 0 <= i <= |items|
      invariant ParseBlocks(items) == Prepend(results, ParseBlocks(items[i..]))
    {
      var item := items[i];
      ParseBlocksStep(items, i, results);
      if item.title.Some? {
        var r := ParseBlock(item.title.value, item);
        if r.Err? {
          records := Err(r.error);
          return;
        }
        results := results + [r.value];
      }
      i := i + 1;
    }
    assert items[i..] == [];
    assert results + [] == results;
    records := Ok(results);
  }
}
