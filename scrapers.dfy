/**
 * The decisions the scraper takes over what a page shows: the product name,
 * the price and the stock verdict read from element texts, the quick stock
 * checks, the choice between the two transports, the Mashkar product id and
 * the batched multi-URL check.
 *
 * A fetched page is an observation: the texts the selectors find and the
 * page's text, not its markup.
 */
module Scrapers {
  import opened Wrappers
  import opened Text
  import opened Config
  import opened Batching

  /** What one scrape reports about a product. */
  datatype ProductInfo = ProductInfo(
    name: string,
    price: Option<string>,
    inStock: bool,
    stockText: string,
    lastChecked: string,
    errorMessage: Option<string>)

  const NotAvailable: string := "לא זמין"
  const InStockText: string := "במלאי"
  const UndeterminedText: string := "לא ניתן לקבוע"
  const TimeoutText: string := "שגיאת זמן קצוב"
  const LoadErrorName: string := "שגיאה בטעינת המוצר"
  const ErrorText: string := "שגיאה"

  /** The selectors tried for the product name, in order. */
  const NameSelectors: seq<string> :=
    ["h1", ".product-title", ".product-name", "[data-testid=\"product-title\"]", ".item-title"]

  /** The selectors tried for the price, in order. */
  const PriceSelectors: seq<string> :=
    [".price", ".product-price", "[data-testid=\"price\"]", ".current-price", ".final-price"]

  /**
   * A page parsed from HTML. `texts[sel]` is the stripped text of the first
   * element `sel` matches (absent when nothing matches); `stockTexts` are the
   * stripped texts of the elements the club's stock selector matches, in
   * document order; `text` is the text of the whole page.
   */
  datatype ParsedPage = ParsedPage(texts: map<string, string>, stockTexts: seq<string>, text: string)

  /**
   * A page rendered in the browser. `texts[sel]` is the raw inner text of the
   * element the lookup for `sel` finds (absent when none is found or reading
   * it raises). `stockTexts` is the result of querying the club's stock
   * selector: `None` when the query raises, and per element `None` when
   * reading its text raises. `content` is the page's HTML, `None` when
   * reading it raises.
   */
  datatype RenderedPage = RenderedPage(
    texts: map<string, string>,
    stockTexts: Option<seq<Option<string>>>,
    content: Option<string>)

  /** What a request for a page gave: a response with its status, a timeout or another error. */
  datatype Response<B> = Responded(status: int, body: B) | TimedOut | Failed(message: string)

  /** What opening a page in the browser gave. */
  datatype PageLoad = Loaded(page: RenderedPage) | LoadTimedOut | LoadFailed(message: string)

  /** The outcome of one scraping attempt: a product record, or the message of what it raised. */
  datatype Attempt = Returned(info: ProductInfo) | Raised(message: string)

  /** Why the multi-URL check raised. */
  datatype BatchError = ZeroBatchStep

  // ---------------------------------------------------------------------
  // Name, price and stock text

  predicate Named(texts: map<string, string>, sel: string) {
    sel in texts && texts[sel] != ""
  }

  /** The text of the first selector from `i` on whose text is non-empty, else the placeholder. */
  function NameFrom(sels: seq<string>, texts: map<string, string>, i: nat): string
    decreases |sels| - i
  {
    if i >= |sels| then NotAvailable
    else if Named(texts, sels[i]) then texts[sels[i]]
    else NameFrom(sels, texts, i + 1)
  }

  /**
   * The browser's name scan: every selector that finds an element replaces
   * the name with its stripped text, and the scan stops at the first one
   * that is non-empty. `texts` are already stripped.
   */
  function RenderedNameFrom(sels: seq<string>, texts: map<string, string>, i: nat, current: string): string
    decreases |sels| - i
  {
    if i >= |sels| then current
    else if sels[i] in texts then
      if texts[sels[i]] != "" then texts[sels[i]] else RenderedNameFrom(sels, texts, i + 1, texts[sels[i]])
    else RenderedNameFrom(sels, texts, i + 1, current)
  }

  predicate Priced(texts: map<string, string>, sel: string) {
    sel in texts && texts[sel] != "" && HasDigit(texts[sel])
  }

  /** The text of the first selector from `i` on whose text holds a digit, else `None`. */
  function PriceFrom(sels: seq<string>, texts: map<string, string>, i: nat): Option<string>
    decreases |sels| - i
  {
    if i >= |sels| then None
    else if Priced(texts, sels[i]) then Some(texts[sels[i]])
    else PriceFrom(sels, texts, i + 1)
  }

  /** The texts with surrounding whitespace stripped. */
  function Stripped(texts: map<string, string>): (r: map<string, string>)
    ensures r.Keys == texts.Keys
    ensures forall k :: k in r ==> r[k] == StripSpace(texts[k])
  {
    map k | k in texts :: StripSpace(texts[k])
  }

  /** The first non-empty text from `i` on, or the empty string. */
  function FirstTextFrom(ts: seq<string>, i: nat): string
    decreases |ts| - i
  {
    if i >= |ts| then "" else if ts[i] != "" then ts[i] else FirstTextFrom(ts, i + 1)
  }

  /** The element texts with surrounding whitespace stripped; `None` stays where reading raises. */
  function StripEach(ts: seq<Option<string>>): (r: seq<Option<string>>)
    ensures |r| == |ts|
    ensures forall j :: 0 <= j < |ts| ==> r[j] == if ts[j].None? then None else Some(StripSpace(ts[j].value))
  {
    seq(|ts|, j requires 0 <= j < |ts| => if ts[j].None? then None else Some(StripSpace(ts[j].value)))
  }

  /**
   * The browser's stock-text scan over stripped element texts: the first
   * non-empty one, the empty string when there is none, and `None` when
   * reading an element before that raises.
   */
  function RenderedTextFrom(ts: seq<Option<string>>, i: nat): Option<string>
    decreases |ts| - i
  {
    if i >= |ts| then Some("")
    else if ts[i].None? || ts[i].value != "" then ts[i]
    else RenderedTextFrom(ts, i + 1)
  }

  // ---------------------------------------------------------------------
  // Stock decision

  /** The first indicator from `i` on that occurs in `text`. */
  function IndicatorFrom(inds: seq<string>, text: string, i: nat): Option<string>
    decreases |inds| - i
  {
    if i >= |inds| then None
    else if IsSubstring(inds[i], text) then Some(inds[i])
    else IndicatorFrom(inds, text, i + 1)
  }

  /** Some indicator occurs in `text`. */
  predicate AnyIndicator(inds: seq<string>, text: string) {
    exists j :: 0 <= j < |inds| && IsSubstring(inds[j], text)
  }

  /**
   * The stock verdict from the stock text found (possibly empty) and the
   * page text: a found text decides by its own indicators; without one, the
   * first indicator on the page means out of stock and becomes the text.
   */
  function StockFromText(found: string, pageText: string, inds: seq<string>): (bool, string) {
    if found != "" then (IndicatorFrom(inds, found, 0).None?, found)
    else
      match IndicatorFrom(inds, pageText, 0)
      case None => (true, InStockText)
      case Some(ind) => (false, if ind == "" then NotAvailable else ind)
  }

  // ---------------------------------------------------------------------
  // What the scans choose

  /** The name is the text of the first selector with non-empty text, and the placeholder when there is none. */
  lemma {:induction false} NameFromFirst(sels: seq<string>, texts: map<string, string>, i: nat)
    ensures (forall j :: i <= j < |sels| ==> !Named(texts, sels[j])) ==> NameFrom(sels, texts, i) == NotAvailable
    ensures (exists j :: i <= j < |sels| && Named(texts, sels[j])) ==>
              exists j :: i <= j < |sels| && Named(texts, sels[j]) && NameFrom(sels, texts, i) == texts[sels[j]]
                          && forall m :: i <= m < j ==> !Named(texts, sels[m])
    decreases |sels| - i
  {
    if i < |sels| && !Named(texts, sels[i]) {
      NameFromFirst(sels, texts, i + 1);
    }
  }

  /**
   * The browser's name is the stripped text of the first selector whose
   * stripped text is non-empty; when every element found strips to nothing
   * it is empty, and it keeps its start value only when no element is found.
   */
  lemma {:induction false} RenderedNameFromFirst(sels: seq<string>, texts: map<string, string>, i: nat, current: string)
    ensures (exists j :: i <= j < |sels| && Named(texts, sels[j])) ==>
              exists j :: i <= j < |sels| && Named(texts, sels[j]) && RenderedNameFrom(sels, texts, i, current) == texts[sels[j]]
                          && forall m :: i <= m < j ==> !Named(texts, sels[m])
    ensures (forall j :: i <= j < |sels| ==> !Named(texts, sels[j])) && (exists j :: i <= j < |sels| && sels[j] in texts)
            ==> RenderedNameFrom(sels, texts, i, current) == ""
    ensures (forall j :: i <= j < |sels| ==> sels[j] !in texts) ==> RenderedNameFrom(sels, texts, i, current) == current
    decreases |sels| - i
  {
    if i < |sels| {
      if sels[i] in texts {
        if texts[sels[i]] == "" {
          RenderedNameFromFirst(sels, texts, i + 1, texts[sels[i]]);
        }
      } else {
        RenderedNameFromFirst(sels, texts, i + 1, current);
      }
    }
  }

  /** The price is the text of the first selector whose text holds a digit, and `None` exactly when there is none. */
  lemma {:induction false} PriceFromFirst(sels: seq<string>, texts: map<string, string>, i: nat)
    ensures PriceFrom(sels, texts, i).None? <==> forall j :: i <= j < |sels| ==> !Priced(texts, sels[j])
    ensures PriceFrom(sels, texts, i).Some? ==>
              exists j :: i <= j < |sels| && Priced(texts, sels[j]) && PriceFrom(sels, texts, i).value == texts[sels[j]]
                          && forall m :: i <= m < j ==> !Priced(texts, sels[m])
    decreases |sels| - i
  {
    if i < |sels| && !Priced(texts, sels[i]) {
      PriceFromFirst(sels, texts, i + 1);
    }
  }

  /** The stock text is the first non-empty element text, and empty exactly when every element text is. */
  lemma {:induction false} FirstTextFromFirst(ts: seq<string>, i: nat)
    ensures FirstTextFrom(ts, i) == "" <==> forall j :: i <= j < |ts| ==> ts[j] == ""
    ensures FirstTextFrom(ts, i) != "" ==>
              exists j :: i <= j < |ts| && ts[j] == FirstTextFrom(ts, i) && forall m :: i <= m < j ==> ts[m] == ""
    decreases |ts| - i
  {
    if i < |ts| && ts[i] == "" {
      FirstTextFromFirst(ts, i + 1);
    }
  }

  /**
   * The browser's stock text: `None` exactly when an element that raises
   * comes before any non-blank one, empty exactly when all are blank, and
   * otherwise the first non-blank text.
   */
  lemma {:induction false} RenderedTextFromFirst(ts: seq<Option<string>>, i: nat)
    ensures RenderedTextFrom(ts, i).None? <==>
              exists j :: i <= j < |ts| && ts[j].None? && forall m :: i <= m < j ==> ts[m] == Some("")
    ensures RenderedTextFrom(ts, i) == Some("") <==> forall j :: i <= j < |ts| ==> ts[j] == Some("")
    ensures RenderedTextFrom(ts, i).Some? && RenderedTextFrom(ts, i).value != "" ==>
              exists j :: i <= j < |ts| && ts[j] == RenderedTextFrom(ts, i) && forall m :: i <= m < j ==> ts[m] == Some("")
    decreases |ts| - i
  {
    if i < |ts| && ts[i] == Some("") {
      RenderedTextFromFirst(ts, i + 1);
    }
  }

  /** The indicator found is the first in the list that occurs, and `None` exactly when none occurs. */
  lemma {:induction false} IndicatorFromFirst(inds: seq<string>, text: string, i: nat)
    ensures IndicatorFrom(inds, text, i).None? <==> forall j :: i <= j < |inds| ==> !IsSubstring(inds[j], text)
    ensures IndicatorFrom(inds, text, i).Some? ==>
              exists j :: i <= j < |inds| && inds[j] == IndicatorFrom(inds, text, i).value
                          && IsSubstring(inds[j], text)
                          && forall m :: i <= m < j ==> !IsSubstring(inds[m], text)
    decreases |inds| - i
  {
    if i < |inds| && !IsSubstring(inds[i], text) {
      IndicatorFromFirst(inds, text, i + 1);
      if IndicatorFrom(inds, text, i + 1).Some? {
        var j :| i + 1 <= j < |inds| && inds[j] == IndicatorFrom(inds, text, i + 1).value
                 && IsSubstring(inds[j], text) && forall m :: i + 1 <= m < j ==> !IsSubstring(inds[m], text);
        assert forall m :: i <= m < j ==> !IsSubstring(inds[m], text);
      }
    }
  }

  /**
   * A non-empty stock text decides by its own indicators and is kept; with
   * none, the page text decides, the first indicator found on it becomes the
   * text, and an in-stock verdict reads "במלאי". The text is never empty.
   */
  lemma StockDecision(found: string, pageText: string, inds: seq<string>)
    ensures found != "" ==> StockFromText(found, pageText, inds) == (!AnyIndicator(inds, found), found)
    ensures found == "" ==> (StockFromText(found, pageText, inds).0 <==> !AnyIndicator(inds, pageText))
    ensures found == "" && StockFromText(found, pageText, inds).0 ==> StockFromText(found, pageText, inds).1 == InStockText
    ensures found == "" && !StockFromText(found, pageText, inds).0 ==>
              exists j :: 0 <= j < |inds| && IsSubstring(inds[j], pageText)
                          && (forall m :: 0 <= m < j ==> !IsSubstring(inds[m], pageText))
                          && StockFromText(found, pageText, inds).1 == (if inds[j] == "" then NotAvailable else inds[j])
    ensures StockFromText(found, pageText, inds).1 != ""
  {
    IndicatorFromFirst(inds, found, 0);
    IndicatorFromFirst(inds, pageText, 0);
  }

  /** The record the HTML extraction builds. */
  function SoupInfo(page: ParsedPage, club: Club, clock: string): (info: ProductInfo)
    ensures info.name == NameFrom(NameSelectors, page.texts, 0)
    ensures info.price == PriceFrom(PriceSelectors, page.texts, 0)
    ensures (info.inStock, info.stockText)
            == StockFromText(FirstTextFrom(page.stockTexts, 0), page.text, club.outOfStockIndicators)
    ensures info.lastChecked == clock && info.errorMessage.None?
  {
    var stock := StockFromText(FirstTextFrom(page.stockTexts, 0), page.text, club.outOfStockIndicators);
    ProductInfo(NameFrom(NameSelectors, page.texts, 0), PriceFrom(PriceSelectors, page.texts, 0),
                stock.0, stock.1, clock, None)
  }

  /** The browser's stock verdict: any exception in this part means "undetermined" and in stock. */
  function RenderedStock(page: RenderedPage, inds: seq<string>): (r: (bool, string))
    ensures page.stockTexts.None? ==> r == (true, UndeterminedText)
  {
    match page.stockTexts
    case None => (true, UndeterminedText)
    case Some(ts) =>
      match RenderedTextFrom(StripEach(ts), 0)
      case None => (true, UndeterminedText)
      case Some(found) =>
        if found != "" then StockFromText(found, "", inds)
        else
          match page.content
          case None => (true, UndeterminedText)
          case Some(c) => StockFromText("", c, inds)
  }

  /** The record the browser extraction builds. */
  function RenderedInfo(page: RenderedPage, club: Club, clock: string): (info: ProductInfo)
    ensures info.name == RenderedNameFrom(NameSelectors, Stripped(page.texts), 0, NotAvailable)
    ensures info.price == PriceFrom(PriceSelectors, Stripped(page.texts), 0)
    ensures (info.inStock, info.stockText) == RenderedStock(page, club.outOfStockIndicators)
    ensures info.lastChecked == clock && info.errorMessage.None?
  {
    var stock := RenderedStock(page, club.outOfStockIndicators);
    ProductInfo(RenderedNameFrom(NameSelectors, Stripped(page.texts), 0, NotAvailable),
                PriceFrom(PriceSelectors, Stripped(page.texts), 0), stock.0, stock.1, clock, None)
  }

  // ---------------------------------------------------------------------
  // The scans, as the extraction code runs them

  /** The HTML name loop: the first selector with non-empty text wins. */
  method FindName(texts: map<string, string>) returns (name: string)
    ensures name == NameFrom(NameSelectors, texts, 0)
  {
    name := NotAvailable;
    var i := 0;
    while i < |NameSelectors|
      invariant 0 <= i <= |NameSelectors|
      invariant NameFrom(NameSelectors, texts, 0) == NameFrom(NameSelectors, texts, i)
    {
      var sel := NameSelectors[i];
      if sel in texts && texts[sel] != "" {
        name := texts[sel];
        return;
      }
      i := i + 1;
    }
  }

  /** The browser name loop: each element found replaces the name by its stripped text; a non-empty one stops the loop. */
  method FindRenderedName(texts: map<string, string>) returns (name: string)
    ensures name == RenderedNameFrom(NameSelectors, Stripped(texts), 0, NotAvailable)
  {
    name := NotAvailable;
    var i := 0;
    while i < |NameSelectors|
      invariant 0 <= i <= |NameSelectors|
      invariant RenderedNameFrom(NameSelectors, Stripped(texts), 0, NotAvailable)
                == RenderedNameFrom(NameSelectors, Stripped(texts), i, name)
    {
      var sel := NameSelectors[i];
      if sel in texts {
        name := StripSpace(texts[sel]);
        if name != "" {
          return;
        }
      }
      i := i + 1;
    }
  }

  /** The price loop: the first selector whose text holds a digit wins. */
  method FindPrice(texts: map<string, string>) returns (price: Option<string>)
    ensures price == PriceFrom(PriceSelectors, texts, 0)
  {
    price := None;
    var i := 0;
    while i < |PriceSelectors|
      invariant 0 <= i <= |PriceSelectors|
      invariant PriceFrom(PriceSelectors, texts, 0) == PriceFrom(PriceSelectors, texts, i)
    {
      var sel := PriceSelectors[i];
      if sel in texts {
        var priceText := texts[sel];
        if priceText != "" && HasDigit(priceText) {
          price := Some(priceText);
          return;
        }
      }
      i := i + 1;
    }
  }

  /** The stock-element loop over parsed HTML: the first non-empty text. */
  method FindStockText(ts: seq<string>) returns (text: string)
    ensures text == FirstTextFrom(ts, 0)
  {
    text := "";
    var i := 0;
    while i < |ts|
      invariant 0 <= i <= |ts|
      invariant FirstTextFrom(ts, 0) == FirstTextFrom(ts, i)
    {
      if ts[i] != "" {
        text := ts[i];
        return;
      }
      i := i + 1;
    }
  }

  /** The stock-element loop in the browser; `None` when reading an element raises. */
  method FindRenderedStockText(ts: seq<Option<string>>) returns (text: Option<string>)
    ensures text == RenderedTextFrom(StripEach(ts), 0)
  {
    var i := 0;
    while i < |ts|
      invariant 0 <= i <= |ts|
      invariant RenderedTextFrom(StripEach(ts), 0) == RenderedTextFrom(StripEach(ts), i)
    {
      if ts[i].None? {
        return None;
      }
      var t := StripSpace(ts[i].value);
      if t != "" {
        return Some(t);
      }
      i := i + 1;
    }
    return Some("");
  }

  /** The indicator loop: the first indicator occurring in `text`. */
  method FindIndicator(inds: seq<string>, text: string) returns (found: Option<string>)
    ensures found == IndicatorFrom(inds, text, 0)
  {
    var i := 0;
    while i < |inds|
      invariant 0 <= i <= |inds|
      invariant IndicatorFrom(inds, text, 0) == IndicatorFrom(inds, text, i)
    {
      if IsSubstring(inds[i], text) {
        return Some(inds[i]);
      }
      i := i + 1;
    }
    return None;
  }

  /** The stock part shared by both extractions, once the stock text and the page text are known. */
  method DecideStock(found: string, pageText: string, inds: seq<string>) returns (inStock: bool, stockText: string)
    ensures (inStock, stockText) == StockFromText(found, pageText, inds)
  {
    stockText := found;
    inStock := true;
    if stockText != "" {
      var hit := FindIndicator(inds, stockText);
      if hit.Some? {
        inStock := false;
      }
    } else {
      var hit := FindIndicator(inds, pageText);
      if hit.Some? {
        inStock := false;
        stockText := hit.value;
      }
      if stockText == "" {
        stockText := if inStock then InStockText else NotAvailable;
      }
    }
  }

  /** `_extract_product_info_soup`. `clock` is the text of the event loop's time. */
  method ExtractSoup(page: ParsedPage, club: Club, clock: string) returns (info: ProductInfo)
    ensures info == SoupInfo(page, club, clock)
  {
    var name := FindName(page.texts);
    var price := FindPrice(page.texts);
    var found := FindStockText(page.stockTexts);
    var inStock, stockText := DecideStock(found, page.text, club.outOfStockIndicators);
    info := ProductInfo(name, price, inStock, stockText, clock, None);
  }

  /** `_extract_product_info_playwright`. */
  method ExtractRendered(page: RenderedPage, club: Club, clock: string) returns (info: ProductInfo)
    ensures info == RenderedInfo(page, club, clock)
  {
    var name := FindRenderedName(page.texts);
    var price := FindPrice(Stripped(page.texts));
    var inStock, stockText := true, UndeterminedText;
    if page.stockTexts.Some? {
      var found := FindRenderedStockText(page.stockTexts.value);
      if found.Some? {
        if found.value != "" {
          inStock, stockText := DecideStock(found.value, "", club.outOfStockIndicators);
        } else if page.content.Some? {
          inStock, stockText := DecideStock("", page.content.value, club.outOfStockIndicators);
        }
      }
    }
    info := ProductInfo(name, price, inStock, stockText, clock, None);
  }

  // ---------------------------------------------------------------------
  // Quick stock checks

  /** The quick HTTP check stops reading once it holds more than this many characters. */
  const QuickReadLimit: nat := 50000

  /** The text of the chunks, in order; a chunk whose read raised counts as empty. */
  function Joined(chunks: seq<Option<string>>): string {
    if |chunks| == 0 then ""
    else Joined(chunks[..|chunks| - 1]) + chunks[|chunks| - 1].GetOr("")
  }

  /**
   * The body as the quick HTTP check reads it, from chunk `i` on with `acc`
   * read so far: it stops after the chunk that takes it past the limit, and
   * gives `None` when reading a chunk raises before that.
   */
  function ReadFrom(chunks: seq<Option<string>>, i: nat, acc: string): Option<string>
    decreases |chunks| - i
  {
    if i >= |chunks| then Some(acc)
    else if chunks[i].None? then None
    else if |acc + chunks[i].value| > QuickReadLimit then Some(acc + chunks[i].value)
    else ReadFrom(chunks, i + 1, acc + chunks[i].value)
  }

  /** `_quick_check_with_http`: `None` unless the answer is 200 and the body reads; then whether no indicator occurs in it. */
  function QuickHttpStatus(response: Response<seq<Option<string>>>, club: Club): Option<bool> {
    if !response.Responded? || response.status != 200 then None
    else
      match ReadFrom(response.body, 0, "")
      case None => None
      case Some(content) => Some(IndicatorFrom(club.outOfStockIndicators, content, 0).None?)
  }

  /** The indicators lower-cased, as the element check compares them. */
  function LowerAll(inds: seq<string>): (r: seq<string>)
    ensures |r| == |inds| && forall j :: 0 <= j < |inds| ==> r[j] == Lower(inds[j])
  {
    seq(|inds|, j requires 0 <= j < |inds| => Lower(inds[j]))
  }

  /** The stripped, lower-cased element text contains a lower-cased indicator. */
  predicate ElementHit(lowered: seq<string>, t: string) {
    IndicatorFrom(lowered, Lower(StripSpace(t)), 0).Some?
  }

  /**
   * The element check from element `i` on: out of stock at the first element
   * that contains an indicator, `None` at an element whose text cannot be
   * read before that, in stock when every element was read without a hit.
   */
  function ElementsFrom(els: seq<Option<string>>, lowered: seq<string>, i: nat): Option<bool>
    decreases |els| - i
  {
    if i >= |els| then Some(true)
    else if els[i].None? then None
    else if ElementHit(lowered, els[i].value) then Some(false)
    else ElementsFrom(els, lowered, i + 1)
  }

  /**
   * `_quick_check_with_playwright`: with stock elements, the element check;
   * without, a case-sensitive scan of the page source; `None` when loading
   * or querying the page fails.
   */
  function QuickRenderedStatus(load: PageLoad, club: Club): Option<bool> {
    match load
    case Loaded(page) =>
      (match page.stockTexts
       case None => None
       case Some(els) =>
         if |els| > 0 then ElementsFrom(els, LowerAll(club.outOfStockIndicators), 0)
         else
           match page.content
           case None => None
           case Some(c) => Some(IndicatorFrom(club.outOfStockIndicators, c, 0).None?))
    case LoadTimedOut => None
    case LoadFailed(_) => None
  }

  /** `check_stock_status`: the club's quick check, `None` for an unknown store. */
  function StockStatus(storeId: string, response: Response<seq<Option<string>>>, load: PageLoad): Option<bool> {
    match LookupClub(storeId)
    case None => None
    case Some(club) => if club.requiresJs then QuickRenderedStatus(load, club) else QuickHttpStatus(response, club)
  }

  /**
   * What the quick HTTP read returns: the first `k` chunks, all read, where
   * no shorter prefix `j` (at least one chunk) went past the limit and the
   * read ends early only past it. `None` only when some chunk raised.
   */
  lemma {:induction false} ReadFromStops(chunks: seq<Option<string>>, i: nat)
    requires i <= |chunks|
    requires forall j :: 0 <= j < i ==> chunks[j].Some?
    requires forall j :: 0 < j <= i ==> |Joined(chunks[..j])| <= QuickReadLimit
    ensures ReadFrom(chunks, i, Joined(chunks[..i])).None? ==> exists j :: i <= j < |chunks| && chunks[j].None?
    ensures ReadFrom(chunks, i, Joined(chunks[..i])).Some? ==>
              exists k :: i <= k <= |chunks| && (forall j :: 0 <= j < k ==> chunks[j].Some?)
                          && ReadFrom(chunks, i, Joined(chunks[..i])).value == Joined(chunks[..k])
                          && (k < |chunks| ==> |Joined(chunks[..k])| > QuickReadLimit)
                          && (forall j :: 0 < j < k ==> |Joined(chunks[..j])| <= QuickReadLimit)
    decreases |chunks| - i
  {
    if i < |chunks| && chunks[i].Some? {
      assert chunks[..i + 1][..i] == chunks[..i];
      assert Joined(chunks[..i + 1]) == Joined(chunks[..i]) + chunks[i].value;
      if |Joined(chunks[..i + 1])| <= QuickReadLimit {
        ReadFromStops(chunks, i + 1);
      }
    } else if i == |chunks| {
      assert chunks[..|chunks|] == chunks;
    }
  }

  /**
   * The quick HTTP verdict: `None` for a failed request, a status other than
   * 200 or a body that cannot be read; otherwise out of stock exactly when
   * some indicator occurs in what was read.
   */
  lemma QuickHttpVerdict(response: Response<seq<Option<string>>>, club: Club)
    ensures (!response.Responded? || response.status != 200) ==> QuickHttpStatus(response, club).None?
    ensures response.Responded? && response.status == 200 ==>
              match ReadFrom(response.body, 0, "")
              case None => QuickHttpStatus(response, club).None?
              case Some(content) => QuickHttpStatus(response, club) == Some(!AnyIndicator(club.outOfStockIndicators, content))
  {
    if response.Responded? && response.status == 200 {
      match ReadFrom(response.body, 0, "")
      case None =>
      case Some(content) => IndicatorFromFirst(club.outOfStockIndicators, content, 0);
    }
  }

  /** An element text contains a lower-cased indicator exactly when some indicator, lower-cased, occurs in it. */
  lemma ElementHitIff(inds: seq<string>, t: string)
    ensures ElementHit(LowerAll(inds), t) <==> exists j :: 0 <= j < |inds| && IsSubstring(Lower(inds[j]), Lower(StripSpace(t)))
  {
    IndicatorFromFirst(LowerAll(inds), Lower(StripSpace(t)), 0);
  }

  /** Every element from `i` up to `j` was read and holds no indicator. */
  predicate CleanBetween(els: seq<Option<string>>, lowered: seq<string>, i: nat, j: nat) {
    forall m :: i <= m < j && m < |els| ==> els[m].Some? && !ElementHit(lowered, els[m].value)
  }

  /** The element check is out of stock exactly when some element hits and every element before it was read without a hit. */
  lemma {:induction false} ElementsOutOfStock(els: seq<Option<string>>, lowered: seq<string>, i: nat)
    ensures ElementsFrom(els, lowered, i) == Some(false) <==>
              exists j :: i <= j < |els| && els[j].Some? && ElementHit(lowered, els[j].value) && CleanBetween(els, lowered, i, j)
    decreases |els| - i
  {
    if i < |els| {
      if els[i].Some? && ElementHit(lowered, els[i].value) {
        assert CleanBetween(els, lowered, i, i);
      } else if els[i].Some? {
        ElementsOutOfStock(els, lowered, i + 1);
        if ElementsFrom(els, lowered, i) == Some(false) {
          var j :| i + 1 <= j < |els| && els[j].Some? && ElementHit(lowered, els[j].value) && CleanBetween(els, lowered, i + 1, j);
          assert CleanBetween(els, lowered, i, j);
        }
      }
    }
  }

  /** The element check gives `None` exactly when an element that cannot be read comes before any hit. */
  lemma {:induction false} ElementsUnreadable(els: seq<Option<string>>, lowered: seq<string>, i: nat)
    ensures ElementsFrom(els, lowered, i).None? <==>
              exists j :: i <= j < |els| && els[j].None? && CleanBetween(els, lowered, i, j)
    decreases |els| - i
  {
    if i < |els| {
      if els[i].None? {
        assert CleanBetween(els, lowered, i, i);
      } else if !ElementHit(lowered, els[i].value) {
        ElementsUnreadable(els, lowered, i + 1);
        if ElementsFrom(els, lowered, i).None? {
          var j :| i + 1 <= j < |els| && els[j].None? && CleanBetween(els, lowered, i + 1, j);
          assert CleanBetween(els, lowered, i, j);
        }
      }
    }
  }

  /** The element check is in stock exactly when every element was read without a hit. */
  lemma {:induction false} ElementsInStock(els: seq<Option<string>>, lowered: seq<string>, i: nat)
    ensures ElementsFrom(els, lowered, i) == Some(true) <==> CleanBetween(els, lowered, i, |els|)
    decreases |els| - i
  {
    if i < |els| && els[i].Some? && !ElementHit(lowered, els[i].value) {
      ElementsInStock(els, lowered, i + 1);
    }
  }

  /** Without stock elements the browser check scans the page source case-sensitively. */
  lemma QuickRenderedWithoutElements(page: RenderedPage, club: Club)
    requires page.stockTexts == Some([]) && page.content.Some?
    ensures QuickRenderedStatus(Loaded(page), club) == Some(!AnyIndicator(club.outOfStockIndicators, page.content.value))
  {
    IndicatorFromFirst(club.outOfStockIndicators, page.content.value, 0);
  }

  /** The quick HTTP read, chunk by chunk. */
  method ReadBody(chunks: seq<Option<string>>) returns (content: Option<string>)
    ensures content == ReadFrom(chunks, 0, "")
  {
    var acc := "";
    var i := 0;
    while i < |chunks|
      invariant 0 <= i <= |chunks|
      invariant ReadFrom(chunks, 0, "") == ReadFrom(chunks, i, acc)
    {
      if chunks[i].None? {
        return None;
      }
      acc := acc + chunks[i].value;
      if |acc| > QuickReadLimit {
        return Some(acc);
      }
      i := i + 1;
    }
    return Some(acc);
  }

  /** `_quick_check_with_http`. */
  method QuickCheckWithHttp(response: Response<seq<Option<string>>>, club: Club) returns (r: Option<bool>)
    ensures r == QuickHttpStatus(response, club)
  {
    if !response.Responded? || response.status != 200 {
      return None;
    }
    var content := ReadBody(response.body);
    if content.None? {
      return None;
    }
    var hit := FindIndicator(club.outOfStockIndicators, content.value);
    return Some(hit.None?);
  }

  /** `_quick_check_with_playwright`. */
  method QuickCheckWithPlaywright(load: PageLoad, club: Club) returns (r: Option<bool>)
    ensures r == QuickRenderedStatus(load, club)
  {
    if !load.Loaded? || load.page.stockTexts.None? {
      return None;
    }
    var els := load.page.stockTexts.value;
    if |els| > 0 {
      var lowered := LowerAll(club.outOfStockIndicators);
      var i := 0;
      while i < |els|
        invariant 0 <= i <= |els|
        invariant ElementsFrom(els, lowered, 0) == ElementsFrom(els, lowered, i)
      {
        if els[i].None? {
          return None;
        }
        var text := Lower(StripSpace(els[i].value));
        var hit := FindIndicator(lowered, text);
        if hit.Some? {
          return Some(false);
        }
        i := i + 1;
      }
      return Some(true);
    }
    if load.page.content.None? {
      return None;
    }
    var hit := FindIndicator(club.outOfStockIndicators, load.page.content.value);
    return Some(hit.None?);
  }

  /** `check_stock_status`: the quick check of the store's transport. */
  method CheckStockStatus(storeId: string, response: Response<seq<Option<string>>>, load: PageLoad)
    returns (r: Option<bool>)
    ensures r == StockStatus(storeId, response, load)
    ensures LookupClub(storeId).None? ==> r.None?
  {
    var club := LookupClub(storeId);
    if club.None? {
      return None;
    }
    if club.value.requiresJs {
      r := QuickCheckWithPlaywright(load, club.value);
    } else {
      r := QuickCheckWithHttp(response, club.value);
    }
  }

  // ---------------------------------------------------------------------
  // The two transports and the fallback between them

  /** The record of a request that timed out. */
  function TimeoutInfo(message: string): ProductInfo {
    ProductInfo(TimeoutText, None, false, TimeoutText, "", Some(message))
  }

  /** The record of an answer whose status is not 200. */
  function HttpErrorInfo(status: int): ProductInfo {
    ProductInfo("שגיאת HTTP " + IntText(status), None, false, "HTTP " + IntText(status), "", Some("HTTP " + IntText(status)))
  }

  /** The record returned when the fallback transport raises too. */
  function LoadErrorInfo(message: string): ProductInfo {
    ProductInfo(LoadErrorName, None, false, ErrorText, "", Some(message))
  }

  /** `_scrape_with_http`: extraction from a 200 answer, an error record for another status or a timeout; other errors propagate. */
  function HttpAttempt(response: Response<ParsedPage>, club: Club, clock: string): Attempt {
    match response
    case Responded(status, page) => if status != 200 then Returned(HttpErrorInfo(status)) else Returned(SoupInfo(page, club, clock))
    case TimedOut => Returned(TimeoutInfo("HTTP Timeout"))
    case Failed(message) => Raised(message)
  }

  /** `_scrape_with_playwright`: extraction from a loaded page, an error record on a timeout; other errors propagate. */
  function RenderedAttempt(load: PageLoad, club: Club, clock: string): Attempt {
    match load
    case Loaded(page) => Returned(RenderedInfo(page, club, clock))
    case LoadTimedOut => Returned(TimeoutInfo("Timeout"))
    case LoadFailed(message) => Raised(message)
  }

  /** A first attempt worth keeping: it returned, reports no error and has a real name. */
  predicate Usable(a: Attempt) {
    a.Returned? && (a.info.errorMessage.None? || a.info.errorMessage.value == "")
    && a.info.name != "" && a.info.name != NotAvailable
  }

  /**
   * The fallback rule: a usable first attempt is the answer; otherwise the
   * second attempt's record, unchanged, or, when it raises, the load-error
   * record carrying the first attempt's exception if there was one.
   */
  function Choose(first: Attempt, second: Attempt): ProductInfo {
    if Usable(first) then first.info
    else
      match second
      case Returned(info) => info
      case Raised(message) => LoadErrorInfo(if first.Raised? then first.message else message)
  }

  /** `get_product_info`: `None` for an unknown store, else the fallback rule with the club's transport first. */
  function ProductInfoOf(storeId: string, response: Response<ParsedPage>, load: PageLoad, clock: string): Option<ProductInfo> {
    match LookupClub(storeId)
    case None => None
    case Some(club) =>
      var http := HttpAttempt(response, club, clock);
      var rendered := RenderedAttempt(load, club, clock);
      Some(if club.requiresJs then Choose(rendered, http) else Choose(http, rendered))
  }

  /** The three outcomes of the fallback rule. */
  lemma ChooseOutcomes(first: Attempt, second: Attempt)
    ensures Usable(first) ==> Choose(first, second) == first.info
    ensures !Usable(first) && second.Returned? ==> Choose(first, second) == second.info
    ensures !Usable(first) && second.Raised? ==>
              var r := Choose(first, second);
              r.name == LoadErrorName && !r.inStock && r.stockText == ErrorText
              && r.errorMessage == Some(if first.Raised? then first.message else second.message)
  {
  }

  /** A usable first attempt makes the second one irrelevant. */
  lemma UsableIgnoresSecond(first: Attempt, second: Attempt, other: Attempt)
    requires Usable(first)
    ensures Choose(first, second) == Choose(first, other)
  {
  }

  /** An HTTP error status or a timeout never counts as a usable first attempt. */
  lemma HttpErrorsFallBack(response: Response<ParsedPage>, club: Club, clock: string)
    requires !response.Responded? || response.status != 200
    ensures !Usable(HttpAttempt(response, club, clock))
  {
  }

  /** A browser timeout never counts as a usable first attempt. */
  lemma RenderedTimeoutFallsBack(club: Club, clock: string)
    ensures !Usable(RenderedAttempt(LoadTimedOut, club, clock))
  {
  }

  /** A page without any named element falls back: its name is the placeholder. */
  lemma UnnamedPageFallsBack(page: ParsedPage, club: Club, clock: string)
    requires forall j :: 0 <= j < |NameSelectors| ==> !Named(page.texts, NameSelectors[j])
    ensures !Usable(HttpAttempt(Responded(200, page), club, clock))
  {
    NameFromFirst(NameSelectors, page.texts, 0);
  }

  /** The HTTP transport. */
  method ScrapeWithHttp(response: Response<ParsedPage>, club: Club, clock: string) returns (a: Attempt)
    ensures a == HttpAttempt(response, club, clock)
  {
    match response
    case Responded(status, page) =>
      if status != 200 {
        return Returned(HttpErrorInfo(status));
      }
      var info := ExtractSoup(page, club, clock);
      return Returned(info);
    case TimedOut =>
      return Returned(TimeoutInfo("HTTP Timeout"));
    case Failed(message) =>
      return Raised(message);
  }

  /** The browser transport. */
  method ScrapeWithPlaywright(load: PageLoad, club: Club, clock: string) returns (a: Attempt)
    ensures a == RenderedAttempt(load, club, clock)
  {
    match load
    case Loaded(page) =>
      var info := ExtractRendered(page, club, clock);
      return Returned(info);
    case LoadTimedOut =>
      return Returned(TimeoutInfo("Timeout"));
    case LoadFailed(message) =>
      return Raised(message);
  }

  /**
   * `get_product_info`. `tries` counts the transports used: one when the
   * first attempt is usable, otherwise exactly two; none for an unknown store.
   */
  method GetProductInfo(storeId: string, response: Response<ParsedPage>, load: PageLoad, clock: string)
    returns (r: Option<ProductInfo>, tries: nat)
    ensures r == ProductInfoOf(storeId, response, load, clock)
    ensures LookupClub(storeId).None? ==> r.None? && tries == 0
    ensures LookupClub(storeId).Some? ==>
              var club := LookupClub(storeId).value;
              var first := if club.requiresJs then RenderedAttempt(load, club, clock) else HttpAttempt(response, club, clock);
              tries == if Usable(first) then 1 else 2
  {
    var found := LookupClub(storeId);
    if found.None? {
      return None, 0;
    }
    var club := found.value;
    var first: Attempt;
    if club.requiresJs {
      first := ScrapeWithPlaywright(load, club, clock);
    } else {
      first := ScrapeWithHttp(response, club, clock);
    }
    if Usable(first) {
      return Some(first.info), 1;
    }
    var second: Attempt;
    if club.requiresJs {
      second := ScrapeWithHttp(response, club, clock);
    } else {
      second := ScrapeWithPlaywright(load, club, clock);
    }
    tries := 2;
    match second
    case Returned(info) =>
      r := Some(info);
    case Raised(message) =>
      r := Some(LoadErrorInfo(if first.Raised? then first.message else message));
  }

  // ---------------------------------------------------------------------
  // The Mashkar product id

  const ProductMarker: string := "/product/"

  /** The length of the run of ASCII digits starting at `i`. */
  function DigitRun(s: string, i: nat): (n: nat)
    requires i <= |s|
    ensures i + n <= |s|
    ensures forall k :: i <= k < i + n ==> IsAsciiDigit(s[k])
    ensures i + n == |s| || !IsAsciiDigit(s[i + n])
    decreases |s| - i
  {
    if i == |s| || !IsAsciiDigit(s[i]) then 0 else 1 + DigitRun(s, i + 1)
  }

  /** `/product/` followed by a digit starts at `i`. */
  predicate IdAt(url: string, i: nat) {
    OccursAt(ProductMarker, url, i) && i + |ProductMarker| < |url| && IsAsciiDigit(url[i + |ProductMarker|])
  }

  /** The digits after the match at `i`. */
  function IdDigits(url: string, i: nat): (d: string)
    requires IdAt(url, i)
    ensures |d| > 0 && forall k :: 0 <= k < |d| ==> IsAsciiDigit(d[k])
    ensures i + |ProductMarker| + |d| <= |url|
    ensures i + |ProductMarker| + |d| == |url| || !IsAsciiDigit(url[i + |ProductMarker| + |d|])
  {
    var start := i + |ProductMarker|;
    url[start..start + DigitRun(url, start)]
  }

  /** The regex search from position `i` on. */
  function IdFrom(url: string, i: nat): Option<string>
    decreases |url| - i
  {
    if i + |ProductMarker| >= |url| then None
    else if IdAt(url, i) then Some(IdDigits(url, i))
    else IdFrom(url, i + 1)
  }

  /** `_extract_mashkar_product_id`: the digits of the leftmost match of `/product/(\d+)`, or `None`. */
  function ExtractMashkarProductId(url: string): Option<string> {
    IdFrom(url, 0)
  }

  /**
   * The search finds the leftmost match: `None` exactly when no position
   * from `i` on holds `/product/` and a digit, otherwise the maximal digit
   * run after the first such position.
   */
  lemma {:induction false} IdFromLeftmost(url: string, i: nat)
    ensures IdFrom(url, i).None? <==> forall j: nat :: i <= j < |url| ==> !IdAt(url, j)
    ensures IdFrom(url, i).Some? ==>
              exists j: nat :: i <= j < |url| && IdAt(url, j) && (forall m: nat :: i <= m < j ==> !IdAt(url, m))
                               && IdFrom(url, i).value == IdDigits(url, j)
    decreases |url| - i
  {
    if i + |ProductMarker| >= |url| {
    } else if IdAt(url, i) {
      assert forall m: nat :: i <= m < i ==> !IdAt(url, m);
    } else {
      IdFromLeftmost(url, i + 1);
      if IdFrom(url, i).Some? {
        var j: nat :| i + 1 <= j < |url| && IdAt(url, j) && (forall m: nat :: i + 1 <= m < j ==> !IdAt(url, m))
                      && IdFrom(url, i + 1).value == IdDigits(url, j);
        assert forall m: nat :: i <= m < j ==> !IdAt(url, m);
      }
    }
  }

  /**
   * The id is `None` exactly when no position holds `/product/` and a digit;
   * otherwise it is one or more ASCII digits taken after the leftmost such
   * position and not continued by another digit.
   */
  lemma MashkarIdShape(url: string)
    ensures ExtractMashkarProductId(url).None? <==> forall j: nat :: j < |url| ==> !IdAt(url, j)
    ensures ExtractMashkarProductId(url).Some? ==>
              exists j: nat :: j < |url| && IdAt(url, j) && (forall m: nat :: m < j ==> !IdAt(url, m))
                               && ExtractMashkarProductId(url).value == IdDigits(url, j)
  {
    IdFromLeftmost(url, 0);
  }

  // ---------------------------------------------------------------------
  // The batched multi-URL check

  /** `min(MAX_CONCURRENT_REQUESTS, 5)`. */
  function MultiBatchSize(cfg: BotConfig): int {
    if cfg.maxConcurrentRequests < 5 then cfg.maxConcurrentRequests else 5
  }

  /** The quick check's verdict for every item, given what each item's fetch shows. */
  function Verdicts(items: seq<(string, string)>, fetched: seq<(Response<seq<Option<string>>>, PageLoad)>): (r: seq<Option<bool>>)
    requires |fetched| == |items|
    ensures |r| == |items|
  {
    if |items| == 0 then []
    else
      var n := |items| - 1;
      Verdicts(items[..n], fetched[..n]) + [StockStatus(items[n].1, fetched[n].0, fetched[n].1)]
  }

  /** Item `k`'s verdict is the quick check of its own store and fetch. */
  lemma {:induction false} VerdictAt(items: seq<(string, string)>, fetched: seq<(Response<seq<Option<string>>>, PageLoad)>, k: nat)
    requires |fetched| == |items| && k < |items|
    ensures Verdicts(items, fetched)[k] == StockStatus(items[k].1, fetched[k].0, fetched[k].1)
    decreases |items|
  {
    var n := |items| - 1;
    var front := Verdicts(items[..n], fetched[..n]);
    assert Verdicts(items, fetched) == front + [StockStatus(items[n].1, fetched[n].0, fetched[n].1)];
    if k < n {
      VerdictAt(items[..n], fetched[..n], k);
      assert items[..n][k] == items[k] && fetched[..n][k] == fetched[k];
    }
  }

  /** The results dictionary after the first `k` items, later items overwriting earlier ones with the same URL. */
  function Collected(items: seq<(string, string)>, verdicts: seq<Option<bool>>, k: nat): map<string, Option<bool>>
    requires k <= |items| && |verdicts| == |items|
  {
    if k == 0 then map[] else Collected(items, verdicts, k - 1)[items[k - 1].0 := verdicts[k - 1]]
  }

  /** Every URL checked has an entry, and holds the verdict of its last occurrence. */
  lemma {:induction false} CollectedLast(items: seq<(string, string)>, verdicts: seq<Option<bool>>, k: nat, url: string)
    requires k <= |items| && |verdicts| == |items|
    ensures url in Collected(items, verdicts, k) <==> exists j :: 0 <= j < k && items[j].0 == url
    ensures url in Collected(items, verdicts, k) ==>
              exists j :: 0 <= j < k && items[j].0 == url && Collected(items, verdicts, k)[url] == verdicts[j]
                          && forall m :: j < m < k ==> items[m].0 != url
  {
    if k > 0 {
      CollectedLast(items, verdicts, k - 1, url);
    }
  }

  /** The quick check of item `k`. */
  method CheckItem(items: seq<(string, string)>, fetched: seq<(Response<seq<Option<string>>>, PageLoad)>, k: nat)
    returns (verdict: Option<bool>)
    requires |fetched| == |items| && k < |items|
    ensures verdict == Verdicts(items, fetched)[k]
  {
    verdict := CheckStockStatus(items[k].1, fetched[k].0, fetched[k].1);
    VerdictAt(items, fetched, k);
  }

  /** One batch: the items from `i` up to `next`, each checked and recorded in turn. */
  method CheckBatch(items: seq<(string, string)>, fetched: seq<(Response<seq<Option<string>>>, PageLoad)>,
                    ghost verdicts: seq<Option<bool>>, i: nat, next: nat, results: map<string, Option<bool>>)
    returns (updated: map<string, Option<bool>>)
    requires |fetched| == |items| && i <= next <= |items|
    requires verdicts == Verdicts(items, fetched)
    requires results == Collected(items, verdicts, i)
    ensures updated == Collected(items, verdicts, next)
  {
    updated := results;
    var k := i;
    while k < next
      invariant i <= k <= next
      invariant updated == Collected(items, verdicts, k)
    {
      var verdict := CheckItem(items, fetched, k);
      updated := updated[items[k].0 := verdict];
      k := k + 1;
    }
  }

  /**
   * `check_multiple_stocks`, checking the items batch by batch. A batch step
   * of zero makes `range` raise; a negative one gives no batches. `pauses`
   * counts the sleeps, one after every batch.
   */
  method CheckMultipleStocks(items: seq<(string, string)>, fetched: seq<(Response<seq<Option<string>>>, PageLoad)>, cfg: BotConfig)
    returns (r: Result<map<string, Option<bool>>, BatchError>, pauses: nat)
    requires |fetched| == |items|
    ensures MultiBatchSize(cfg) == 0 ==> r == Failure(ZeroBatchStep) && pauses == 0
    ensures MultiBatchSize(cfg) < 0 ==> r == Success(map[]) && pauses == 0
    ensures MultiBatchSize(cfg) > 0 ==>
              r == Success(Collected(items, Verdicts(items, fetched), |items|))
              && pauses == |Batches(items, MultiBatchSize(cfg) as nat)|
  {
    var size := MultiBatchSize(cfg);
    if size == 0 {
      return Failure(ZeroBatchStep), 0;
    }
    if size < 0 {
      return Success(map[]), 0;
    }
    ghost var verdicts := Verdicts(items, fetched);
    var results: map<string, Option<bool>> := map[];
    pauses := 0;
    var i := 0;
    assert items[0..] == items;
    while i < |items|
      invariant 0 <= i <= |items|
      invariant results == Collected(items, verdicts, i)
      invariant pauses + |Batches(items[i..], size as nat)| == |Batches(items, size as nat)|
      decreases |items| - i
    {
      var next := if i + size <= |items| then i + size else |items|;
      BatchesFrom(items, size as nat, i);
      results := CheckBatch(items, fetched, verdicts, i, next, results);
      pauses := pauses + 1;
      i := next;
    }
    assert items[|items|..] == [];
    return Success(results), pauses;
  }
}
