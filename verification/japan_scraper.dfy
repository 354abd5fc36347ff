/** The Japanese-market scraper: a parsed listing page from Goo-net, an
    auction API response from USS, and the fallback to synthetic listings
    whenever no real data arrives. The page's extracted texts and the API's
    items are inputs; the browser launch, the clock and the synthetic draws
    are parameters. */
module JapanScraper {
  import opened Common
  import opened Text
  import opened Domain
  import MockData

  /** The character 万 (ten thousand), as in a price written "150万円". */
  const Man: char := '\U{4E07}'

  /** The characters a Goo-net price keeps: digits and the decimal point. */
  predicate PriceChar(c: char) {
    IsDigit(c) || c == '.'
  }

  /** `parsePrice`: empty text is `null`; otherwise keep the digits and
      points, read a number, and scale by ten thousand when the text is in
      units of 万. `None` stands for both `null` and NaN. */
  function ParsePrice(text: string): (p: Option<real>)
    ensures |text| == 0 ==> p.None?
    ensures p.Some? <==> |text| > 0 && ParseFloat(Keep(text, PriceChar)).Some?
    ensures p.Some? && !HasChar(text, Man) ==> p == ParseFloat(Keep(text, PriceChar))
    ensures p.Some? && HasChar(text, Man) ==> p.value == ParseFloat(Keep(text, PriceChar)).value * 10000.0
  {
    if |text| == 0 then None
    else
      var price := ParseFloat(Keep(text, PriceChar));
      if price.Some? && HasChar(text, Man) then Some(price.value * 10000.0) else price
  }

  /** A numeral followed by 万円 reads as that many ten-thousands of yen;
      followed by 円 it reads as that many yen. */
  lemma ParsePriceUnits(n: nat)
    ensures ParsePrice(ShowNat(n) + [Man, '\U{5186}']) == Some(n as real * 10000.0)
    ensures ParsePrice(ShowNat(n) + ['\U{5186}']) == Some(n as real)
  {
    var digits := ShowNat(n);
    KeepIdentity(digits, PriceChar);
    ParseNumeral(n, "");
    assert digits + "" == digits;
    KeepConcat(digits, [Man, '\U{5186}'], PriceChar);
    KeepNone([Man, '\U{5186}'], PriceChar);
    assert Keep(digits + [Man, '\U{5186}'], PriceChar) == digits;
    assert (digits + [Man, '\U{5186}'])[|digits|] == Man;
    KeepConcat(digits, ['\U{5186}'], PriceChar);
    KeepNone(['\U{5186}'], PriceChar);
    assert Keep(digits + ['\U{5186}'], PriceChar) == digits;
    assert forall i :: 0 <= i < |digits| ==> digits[i] != Man;
  }

  /** `parseMileage`: keep the digits and read an integer; empty text, no
      digits and zero all give `null`. */
  function ParseMileage(text: string): (m: Option<nat>)
    ensures m.Some? ==> m.value > 0
    ensures m.Some? <==> |text| > 0 && ParseInt(Keep(text, IsDigit)).Some? && ParseInt(Keep(text, IsDigit)).value != 0
    ensures m.Some? ==> m == ParseInt(Keep(text, IsDigit))
  {
    if |text| == 0 then None
    else
      var n := ParseInt(Keep(text, IsDigit));
      if n.Some? && n.value != 0 then n else None
  }

  /** Separators and units never change the mileage: inserting a character
      that is not a digit anywhere gives the same reading. */
  lemma ParseMileageIgnoresNonDigits(s: string, t: string, c: char)
    requires !IsDigit(c)
    ensures ParseMileage(s + [c] + t) == ParseMileage(s + t)
  {
    KeepConcat(s + [c], t, IsDigit);
    KeepConcat(s, [c], IsDigit);
    KeepConcat(s, t, IsDigit);
    KeepNone([c], IsDigit);
    assert Keep(s + [c] + t, IsDigit) == Keep(s + t, IsDigit);
    if |s + t| == 0 {
      assert Keep(s + t, IsDigit) == "";
    }
  }

  /** A positive numeral with a unit reads back as that number. */
  lemma ParseMileageRoundTrip(n: nat)
    requires n > 0
    ensures ParseMileage(ShowNat(n) + "km") == Some(n)
  {
    var digits := ShowNat(n);
    KeepConcat(digits, "km", IsDigit);
    KeepNone("km", IsDigit);
    KeepIdentity(digits, IsDigit);
    ParseNumeral(n, "");
    assert digits + "" == digits;
    assert Keep(digits + "km", IsDigit) == digits;
  }

  // ---------------------------------------------------------------------
  // Goo-net.

  /** The texts one `.usedcar-list-item` yields, before trimming. */
  datatype GooItem = GooItem(
    makeText: string,
    modelText: string,
    yearText: string,
    priceText: string,
    mileageText: string,
    locationText: string,
    href: Option<string>)

  /** The year: the digits of the year text read as an integer. A text with
      no digit gives NaN in the source; the model reads it as 0. */
  function GooYear(yearText: string): (y: int)
    ensures y >= 0
  {
    ParseInt(Keep(yearText, IsDigit)).GetOr(0)
  }

  /** The item is kept when make, model and price are all truthy. */
  predicate GooAccepts(item: GooItem) {
    |Trim(item.makeText)| > 0 && |Trim(item.modelText)| > 0 && Truthy(ParsePrice(item.priceText))
  }

  function GooListing(item: GooItem, now: int): (car: Listing)
    requires GooAccepts(item)
    ensures car.source == "Goo-net" && car.price > 0.0 && car.scrapedAt == now
    ensures |car.make| > 0 && |car.model| > 0
    ensures car.mileage.Some? ==> car.mileage.value > 0
  {
    var mileage := ParseMileage(item.mileageText);
    Listing(Trim(item.makeText), Trim(item.modelText), GooYear(item.yearText),
            if mileage.Some? then Some(mileage.value as int) else None,
            ParsePrice(item.priceText).value,
            None, None, None, None, None, None, Some(Trim(item.locationText)), item.href,
            "Goo-net", None, None, now)
  }

  /** What one item contributes: its listing if accepted, else nothing. */
  function GooCandidate(item: GooItem, now: int): (c: Option<Listing>)
    ensures c.Some? <==> GooAccepts(item)
    ensures c.Some? ==> c.value.source == "Goo-net" && c.value.price > 0.0
  {
    if GooAccepts(item) then Some(GooListing(item, now)) else None
  }

  /** `scrapeGooNet` over the items the page yielded (if parsing stopped
      part-way, the items read before the error). */
  function ScrapeGooNet(items: seq<GooItem>, now: int): (cars: seq<Listing>)
    ensures |cars| <= |items|
    ensures forall i :: 0 <= i < |cars| ==> cars[i].source == "Goo-net" && cars[i].price > 0.0
  {
    if |items| == 0 then []
    else
      var c := GooCandidate(items[0], now);
      var rest := ScrapeGooNet(items[1..], now);
      if c.Some? then [c.value] + rest else rest
  }

  /** The page filter works item by item: it distributes over concatenation,
      keeps an accepted item as its listing and drops any other. */
  lemma {:induction false} ScrapeGooNetConcat(a: seq<GooItem>, b: seq<GooItem>, now: int)
    ensures ScrapeGooNet(a + b, now) == ScrapeGooNet(a, now) + ScrapeGooNet(b, now)
  {
    if |a| > 0 {
      assert (a + b)[0] == a[0] && (a + b)[1..] == a[1..] + b;
      ScrapeGooNetConcat(a[1..], b, now);
      var c := GooCandidate(a[0], now);
      var head := if c.Some? then [c.value] else [];
      assert ScrapeGooNet(a, now) == head + ScrapeGooNet(a[1..], now);
      assert ScrapeGooNet(a + b, now) == head + (ScrapeGooNet(a[1..], now) + ScrapeGooNet(b, now));
    } else {
      assert a + b == b;
    }
  }

  lemma ScrapeGooNetSingle(item: GooItem, now: int)
    ensures GooAccepts(item) ==> ScrapeGooNet([item], now) == [GooListing(item, now)]
    ensures !GooAccepts(item) ==> ScrapeGooNet([item], now) == []
  {
    assert [item][1..] == [];
  }

  // ---------------------------------------------------------------------
  // USS Auction.

  /** One item of the auction API's `results`. */
  datatype UssItem = UssItem(
    maker: string,
    model: string,
    year: int,
    price: real,
    mileage: Option<int>,
    grade: Option<string>,
    auctionDate: Option<string>)

  function UssListing(item: UssItem, now: int): (car: Listing)
    ensures car.source == "USS Auction" && car.scrapedAt == now
    ensures car.make == item.maker && car.model == item.model && car.year == item.year
    ensures car.price == item.price && car.mileage == item.mileage
    ensures car.auctionGrade == item.grade && car.auctionDate == item.auctionDate
  {
    Listing(item.maker, item.model, item.year, item.mileage, item.price,
            None, None, None, None, None, None, None, None,
            "USS Auction", item.grade, item.auctionDate, now)
  }

  /** `scrapeUSSAuction`: `response` is the `results` array, or `None` when
      the request failed or the body had none. It never fails. */
  function ScrapeUss(response: Option<seq<UssItem>>, now: int): (cars: seq<Listing>)
    ensures response.None? ==> cars == []
    ensures response.Some? ==> |cars| == |response.value|
    ensures response.Some? ==> forall i :: 0 <= i < |cars| ==> cars[i] == UssListing(response.value[i], now)
  {
    if response.None? then []
    else seq(|response.value|, i requires 0 <= i < |response.value| => UssListing(response.value[i], now))
  }

  // ---------------------------------------------------------------------
  // The whole scrape.

  /** What opening the Goo-net page gave: a failure that escapes the page
      scraper (opening or closing the page), or the items read. */
  datatype GooOutcome = PageFailed | Parsed(items: seq<GooItem>)

  /** `initialize`: mock mode stays on, and a browser that fails to launch
      turns it on. */
  function Initialize(useMock: bool, launchSucceeds: bool): (mock: bool)
    ensures useMock ==> mock
    ensures !launchSucceeds ==> mock
    ensures !mock ==> !useMock && launchSucceeds
  {
    useMock || !launchSucceeds
  }

  /** `scrapeAll`: 30 synthetic cars in mock mode, 20 when the page scraper
      fails, 25 when neither source gives a car, otherwise the Goo-net cars
      followed by the USS cars. */
  function ScrapeAll(useMock: bool, goo: GooOutcome, uss: Option<seq<UssItem>>,
                     currentYear: int, now: int, draws: nat -> MockData.CarDraw): (cars: seq<Listing>)
    ensures useMock ==> cars == MockData.GenerateMockCars(30, currentYear, now, draws)
    ensures !useMock && goo.PageFailed? ==> cars == MockData.GenerateMockCars(20, currentYear, now, draws)
    ensures !useMock && goo.Parsed? ==>
      var found := ScrapeGooNet(goo.items, now) + ScrapeUss(uss, now);
      cars == (if |found| == 0 then MockData.GenerateMockCars(25, currentYear, now, draws) else found)
  {
    if useMock then MockData.GenerateMockCars(30, currentYear, now, draws)
    else match goo
      case PageFailed => MockData.GenerateMockCars(20, currentYear, now, draws)
      case Parsed(items) =>
        var gooCars := ScrapeGooNet(items, now);
        var ussCars := ScrapeUss(uss, now);
        if |gooCars| == 0 && |ussCars| == 0 then MockData.GenerateMockCars(25, currentYear, now, draws)
        else gooCars + ussCars
  }

  /** Where a listing came from: a synthetic source, or a real one. */
  predicate Synthetic(car: Listing) {
    car.source in MockData.MockSources
  }

  /** A scrape never comes back empty, and it is entirely synthetic exactly
      when mock mode is on, the page scraper failed, or neither source gave
      a car. */
  lemma ScrapeAllProvenance(useMock: bool, goo: GooOutcome, uss: Option<seq<UssItem>>,
                            currentYear: int, now: int, draws: nat -> MockData.CarDraw)
    ensures var cars := ScrapeAll(useMock, goo, uss, currentYear, now, draws);
      && |cars| > 0
      && ((forall i :: 0 <= i < |cars| ==> Synthetic(cars[i])) <==>
            (useMock || goo.PageFailed? || |ScrapeGooNet(goo.items, now) + ScrapeUss(uss, now)| == 0))
      && (!useMock && goo.Parsed? && |ScrapeGooNet(goo.items, now) + ScrapeUss(uss, now)| > 0 ==>
            forall i :: 0 <= i < |cars| ==> !Synthetic(cars[i]))
  {
    var cars := ScrapeAll(useMock, goo, uss, currentYear, now, draws);
    assert "Goo-net" !in MockData.MockSources;
    assert "USS Auction" !in MockData.MockSources;
    if !useMock && goo.Parsed? {
      var gooCars, ussCars := ScrapeGooNet(goo.items, now), ScrapeUss(uss, now);
      if |gooCars + ussCars| > 0 {
        assert cars == gooCars + ussCars;
        forall i | 0 <= i < |cars| ensures !Synthetic(cars[i]) {
          if i < |gooCars| {
            assert cars[i] == gooCars[i];
          } else {
            assert cars[i] == ussCars[i - |gooCars|];
          }
        }
        assert !Synthetic(cars[0]);
      }
    }
  }

  /** With a browser that fails to launch, the scrape does not depend on
      anything the network would have returned. */
  lemma FailedLaunchIgnoresNetwork(useMock: bool, goo1: GooOutcome, uss1: Option<seq<UssItem>>,
                                   goo2: GooOutcome, uss2: Option<seq<UssItem>>,
                                   currentYear: int, now: int, draws: nat -> MockData.CarDraw)
    ensures ScrapeAll(Initialize(useMock, false), goo1, uss1, currentYear, now, draws)
         == ScrapeAll(Initialize(useMock, false), goo2, uss2, currentYear, now, draws)
    ensures |ScrapeAll(Initialize(useMock, false), goo1, uss1, currentYear, now, draws)| == 30
  {
  }
}
