/** The valuation provider: an exact-match lookup in a remote API, then an
    aggregate over a scraped search page, then a synthetic estimate. The
    network answers are inputs (`None` when the request failed); random
    draws and the current year are parameters. */
module ClassicScraper {
  import opened Common
  import opened Text
  import opened Domain
  import MockData

  // ---------------------------------------------------------------------
  // Synthetic estimates.

  datatype TableEntry = TableEntry(key: string, low: real, high: real, average: real)

  /** The lookup table exactly as the source writes it. Its Mazda entry is
      keyed "Mazda3", which no `${make} ${model}` key can equal. */
  const MockTableAsWritten: seq<TableEntry> := [
    TableEntry("Toyota Prius", 15000.0, 25000.0, 20000.0),
    TableEntry("Toyota Camry", 18000.0, 28000.0, 23000.0),
    TableEntry("Toyota Corolla", 12000.0, 20000.0, 16000.0),
    TableEntry("Honda Civic", 14000.0, 22000.0, 18000.0),
    TableEntry("Honda Accord", 16000.0, 26000.0, 21000.0),
    TableEntry("Honda CR-V", 20000.0, 32000.0, 26000.0),
    TableEntry("Nissan Altima", 13000.0, 21000.0, 17000.0),
    TableEntry("Mazda3", 12000.0, 19000.0, 15500.0),
    TableEntry("Subaru Outback", 18000.0, 30000.0, 24000.0)
  ]

  /** The table with the Mazda entry keyed the way lookups build keys. */
  const MockTable: seq<TableEntry> := [
    TableEntry("Toyota Prius", 15000.0, 25000.0, 20000.0),
    TableEntry("Toyota Camry", 18000.0, 28000.0, 23000.0),
    TableEntry("Toyota Corolla", 12000.0, 20000.0, 16000.0),
    TableEntry("Honda Civic", 14000.0, 22000.0, 18000.0),
    TableEntry("Honda Accord", 16000.0, 26000.0, 21000.0),
    TableEntry("Honda CR-V", 20000.0, 32000.0, 26000.0),
    TableEntry("Nissan Altima", 13000.0, 21000.0, 17000.0),
    TableEntry("Mazda Mazda3", 12000.0, 19000.0, 15500.0),
    TableEntry("Subaru Outback", 18000.0, 30000.0, 24000.0)
  ]

  /** The key `getMockResaleValue` looks up: `${make} ${model}`. */
  function TableKey(make: string, model: string): string {
    make + " " + model
  }

  function Lookup(table: seq<TableEntry>, key: string): (e: Option<TableEntry>)
    ensures e.Some? ==> e.value in table && e.value.key == key
    ensures e.None? ==> forall i :: 0 <= i < |table| ==> table[i].key != key
  {
    if |table| == 0 then None
    else if table[0].key == key then Some(table[0])
    else Lookup(table[1..], key)
  }

  /** Every entry is at least one dollar and ordered low <= average <= high. */
  predicate WellFormedTable(table: seq<TableEntry>) {
    forall i :: 0 <= i < |table| ==> 1.0 <= table[i].low <= table[i].average <= table[i].high
  }

  /** `Math.max(0.6, 1 - age * 0.05)`. */
  function TableAgeFactor(age: int): (f: real)
    ensures f >= 0.6
  {
    Max(0.6, 1.0 - age as real * 0.05)
  }

  /** `Math.max(0.5, 1 - age * 0.08)`. */
  function GenericAgeFactor(age: int): (f: real)
    ensures f >= 0.5
  {
    Max(0.5, 1.0 - age as real * 0.08)
  }

  /** `15000 + Math.random() * 10000`: a base value in [15000, 25000). */
  function GenericBase(draw: Unit): (b: real)
    ensures 15000.0 <= b < 25000.0
  {
    15000.0 + draw * 10000.0
  }

  /** Rounding a value of at least one half never gives zero. */
  lemma RoundPositive(x: real)
    requires x >= 0.5
    ensures Round(x) >= 1
  {
  }

  /** Scales a low/average/high triple by a factor and rounds each part. */
  function Depreciated(low: real, average: real, high: real, f: real, source: string): (v: ResaleValue)
    requires 1.0 <= low <= average <= high && f >= 0.5
    ensures OrderedEstimate(v) && v.averageValue.value >= 1.0 && v.source == source
    ensures v.lowValue == Some(Round(low * f) as real)
    ensures v.averageValue == Some(Round(average * f) as real)
    ensures v.highValue == Some(Round(high * f) as real)
  {
    var l, a, h := low * f, average * f, high * f;
    MulLe(low, average, f);
    MulLe(average, high, f);
    MulLe(1.0, low, f);
    RoundMonotone(l, a);
    RoundMonotone(a, h);
    RoundPositive(a);
    ResaleValue(Some(Round(l) as real), Some(Round(h) as real), Some(Round(a) as real), "USD", source, None)
  }

  /** The depreciated generic base value. */
  function GenericAdjusted(draw: Unit, age: int): (adj: real)
    ensures adj >= 7500.0
  {
    var b, f := GenericBase(draw), GenericAgeFactor(age);
    MulLe(0.5, f, b);
    b * f
  }

  /** The generic estimate: -20%, the adjusted value, +20%. */
  function GenericEstimate(draw: Unit, age: int): (v: ResaleValue)
    ensures OrderedEstimate(v) && v.averageValue.value >= 1.0 && v.source == "generated mock data"
    ensures v.lowValue == Some(Round(GenericAdjusted(draw, age) * 0.8) as real)
    ensures v.averageValue == Some(Round(GenericAdjusted(draw, age)) as real)
    ensures v.highValue == Some(Round(GenericAdjusted(draw, age) * 1.2) as real)
  {
    var adj := GenericAdjusted(draw, age);
    RoundMonotone(adj * 0.8, adj);
    RoundMonotone(adj, adj * 1.2);
    RoundPositive(adj);
    ResaleValue(Some(Round(adj * 0.8) as real), Some(Round(adj * 1.2) as real), Some(Round(adj) as real),
                "USD", "generated mock data", None)
  }

  /** `getMockResaleValue` over a given table. */
  function SyntheticValue(table: seq<TableEntry>, make: string, model: string, year: int,
                          currentYear: int, draw: Unit): (v: ResaleValue)
    requires WellFormedTable(table)
    ensures OrderedEstimate(v) && v.averageValue.value >= 1.0
    ensures v.currency == "USD" && v.sampleSize.None?
    ensures v.source == "mock data" <==> Lookup(table, TableKey(make, model)).Some?
    ensures Lookup(table, TableKey(make, model)).Some? ==>
      var e := Lookup(table, TableKey(make, model)).value;
      v == Depreciated(e.low, e.average, e.high, TableAgeFactor(currentYear - year), "mock data")
    ensures Lookup(table, TableKey(make, model)).None? ==> v == GenericEstimate(draw, currentYear - year)
  {
    var entry := Lookup(table, TableKey(make, model));
    if entry.Some? then
      var e := entry.value;
      Depreciated(e.low, e.average, e.high, TableAgeFactor(currentYear - year), "mock data")
    else
      GenericEstimate(draw, currentYear - year)
  }

  lemma MockTablesWellFormed()
    ensures WellFormedTable(MockTableAsWritten) && WellFormedTable(MockTable)
  {
    forall i | 0 <= i < |MockTable|
      ensures 1.0 <= MockTableAsWritten[i].low <= MockTableAsWritten[i].average <= MockTableAsWritten[i].high
      ensures 1.0 <= MockTable[i].low <= MockTable[i].average <= MockTable[i].high
    {
      if i == 0 {} else if i == 1 {} else if i == 2 {} else if i == 3 {} else if i == 4 {}
      else if i == 5 {} else if i == 6 {} else if i == 7 {} else { assert i == 8; }
    }
  }

  /** The synthetic tier as the source behaves. */
  function MockResaleValueAsWritten(make: string, model: string, year: int, currentYear: int, draw: Unit): (v: ResaleValue)
    ensures OrderedEstimate(v) && v.averageValue.value >= 1.0
    ensures v.source == "mock data" <==> Lookup(MockTableAsWritten, TableKey(make, model)).Some?
  {
    MockTablesWellFormed();
    SyntheticValue(MockTableAsWritten, make, model, year, currentYear, draw)
  }

  /** The synthetic tier with the table keyed as intended. For a make and
      model in the table the values are the table's, depreciated 5% a year
      down to 60%; otherwise a random base in [15000, 25000) depreciated 8%
      a year down to 50%, widened by -20%/+20%. */
  function MockResaleValue(make: string, model: string, year: int, currentYear: int, draw: Unit): (v: ResaleValue)
    ensures OrderedEstimate(v) && v.averageValue.value >= 1.0
    ensures v.source == "mock data" <==> Lookup(MockTable, TableKey(make, model)).Some?
  {
    MockTablesWellFormed();
    SyntheticValue(MockTable, make, model, year, currentYear, draw)
  }

  /** Apart from the Mazda entry, every key starts with another letter. */
  lemma OnlyMazdaKeyStartsWithM()
    ensures forall i :: 0 <= i < |MockTable| && i != 7 ==> MockTable[i].key[0] != 'M'
    ensures forall i :: 0 <= i < |MockTableAsWritten| && i != 7 ==> MockTableAsWritten[i].key[0] != 'M'
  {
    forall i | 0 <= i < |MockTable| && i != 7
      ensures MockTable[i].key[0] != 'M' && MockTableAsWritten[i].key[0] != 'M'
    {
      if i == 0 || i == 1 || i == 2 {
        assert MockTableAsWritten[i].key[0] == 'T';
      } else if i == 3 || i == 4 || i == 5 {
        assert MockTableAsWritten[i].key[0] == 'H';
      } else if i == 6 {
        assert MockTableAsWritten[i].key[0] == 'N';
      } else {
        assert MockTableAsWritten[i].key[0] == 'S';
      }
    }
  }

  /** The lookup finds the first entry with the key. */
  lemma LookupFirst(table: seq<TableEntry>, key: string, k: nat)
    requires k < |table| && table[k].key == key
    requires forall j :: 0 <= j < k ==> table[j].key != key
    ensures Lookup(table, key) == Some(table[k])
  {
    if k > 0 {
      LookupFirst(table[1..], key, k - 1);
    }
  }

  /** As written, a Mazda Mazda3 misses its table entry and gets a random
      generic estimate instead of the table's values. */
  lemma MazdaEntryUnreachableAsWritten(year: int, currentYear: int, draw: Unit)
    ensures !HasChar(MockTableAsWritten[7].key, ' ')
    ensures Lookup(MockTableAsWritten, TableKey("Mazda", "Mazda3")).None?
    ensures MockResaleValueAsWritten("Mazda", "Mazda3", year, currentYear, draw).source == "generated mock data"
  {
    var key := TableKey("Mazda", "Mazda3");
    assert key[0] == 'M' && |key| == 12;
    OnlyMazdaKeyStartsWithM();
    assert |MockTableAsWritten[7].key| == 6;
    assert forall i :: 0 <= i < |MockTableAsWritten| ==> MockTableAsWritten[i].key != key;
  }

  /** The make and model each corrected table entry stands for. */
  const TablePairs: seq<(string, string)> := [
    ("Toyota", "Prius"), ("Toyota", "Camry"), ("Toyota", "Corolla"), ("Honda", "Civic"),
    ("Honda", "Accord"), ("Honda", "CR-V"), ("Nissan", "Altima"), ("Mazda", "Mazda3"),
    ("Subaru", "Outback")]

  /** Every corrected entry is keyed `${make} ${model}` by its pair. */
  lemma TableKeysMatchPairs()
    ensures |TablePairs| == |MockTable|
    ensures forall i :: 0 <= i < |TablePairs| ==> TableKey(TablePairs[i].0, TablePairs[i].1) == MockTable[i].key
  {
    forall i | 0 <= i < |TablePairs|
      ensures TableKey(TablePairs[i].0, TablePairs[i].1) == MockTable[i].key
    {
      if i == 0 {} else if i == 1 {} else if i == 2 {} else if i == 3 {} else if i == 4 {}
      else if i == 5 {} else if i == 6 {} else if i == 7 {} else { assert i == 8; }
    }
  }

  /** Every pair is a make and model the synthetic listing generator picks. */
  lemma PairsFromGenerator()
    ensures forall i :: 0 <= i < |TablePairs| ==>
      TablePairs[i].0 in MockData.CarMakes && TablePairs[i].1 in MockData.ModelsByMake[TablePairs[i].0]
  {
    forall i | 0 <= i < |TablePairs|
      ensures TablePairs[i].0 in MockData.CarMakes && TablePairs[i].1 in MockData.ModelsByMake[TablePairs[i].0]
    {
      if i == 0 {} else if i == 1 {} else if i == 2 {} else if i == 3 {} else if i == 4 {}
      else if i == 5 {} else if i == 6 {} else if i == 7 {} else { assert i == 8; }
    }
  }

  /** So every corrected entry is reachable: such a car is valued from the
      table, never from the generic estimate. */
  lemma EveryTableEntryReachable(year: int, currentYear: int, draw: Unit)
    ensures forall i :: 0 <= i < |TablePairs| ==>
      && TablePairs[i].0 in MockData.CarMakes && TablePairs[i].1 in MockData.ModelsByMake[TablePairs[i].0]
      && MockResaleValue(TablePairs[i].0, TablePairs[i].1, year, currentYear, draw).source == "mock data"
  {
    TableKeysMatchPairs();
    PairsFromGenerator();
    forall i | 0 <= i < |TablePairs|
      ensures MockResaleValue(TablePairs[i].0, TablePairs[i].1, year, currentYear, draw).source == "mock data"
    {
      var key := TableKey(TablePairs[i].0, TablePairs[i].1);
      assert MockTable[i].key == key;
      assert Lookup(MockTable, key).Some?;
    }
  }

  /** In the corrected table a Mazda Mazda3 is valued from its entry: in
      its model year it is worth the table's average. */
  lemma MazdaEntryFound(year: int, draw: Unit)
    ensures Lookup(MockTable, TableKey("Mazda", "Mazda3")) == Some(MockTable[7])
    ensures MockResaleValue("Mazda", "Mazda3", year, year, draw).source == "mock data"
    ensures MockResaleValue("Mazda", "Mazda3", year, year, draw).averageValue == Some(15500.0)
  {
    var key := TableKey("Mazda", "Mazda3");
    assert key[0] == 'M';
    OnlyMazdaKeyStartsWithM();
    assert MockTable[7].key == key;
    LookupFirst(MockTable, key, 7);
    assert TableAgeFactor(0) == 1.0;
    assert Round(15500.0 * 1.0) == 15500;
  }

  // ---------------------------------------------------------------------
  // The remote API tier.

  datatype ApiValuation = ApiValuation(low: Option<real>, high: Option<real>, average: Option<real>)

  /** One entry of the API's `results`; `None` is a missing or null field. */
  datatype ApiResult = ApiResult(make: Option<string>, model: Option<string>, year: int,
                                 valuation: Option<ApiValuation>)

  /** What the `find` callback does with one result. */
  datatype Probe = Hit | Miss | Throws

  /** `result.make.toLowerCase() === make.toLowerCase() && result.model…
      && result.year === year`, evaluated left to right: reading a missing
      make throws, and a missing model throws only once the make matched. */
  function ProbeResult(res: ApiResult, make: string, model: string, year: int): (p: Probe)
    ensures p == Hit <==> res.make.Some? && res.model.Some? && EqualsIgnoreCase(res.make.value, make)
                          && EqualsIgnoreCase(res.model.value, model) && res.year == year
    ensures p == Throws <==> res.make.None? || (EqualsIgnoreCase(res.make.value, make) && res.model.None?)
  {
    if res.make.None? then Throws
    else if !EqualsIgnoreCase(res.make.value, make) then Miss
    else if res.model.None? then Throws
    else if EqualsIgnoreCase(res.model.value, model) && res.year == year then Hit
    else Miss
  }

  /** The outcome of `results.find(...)`: the first hit, nothing, or the
      position where the callback threw. */
  datatype Search = Found(index: nat) | NotFound | Threw(index: nat)

  /** `results.find(...)`: the first result the callback does not miss
      decides, a hit by being found, a throw by ending the search. */
  function FindExactMatch(results: seq<ApiResult>, make: string, model: string, year: int): (k: Search)
    ensures k.Found? ==> k.index < |results| && ProbeResult(results[k.index], make, model, year) == Hit
    ensures k.Threw? ==> k.index < |results| && ProbeResult(results[k.index], make, model, year) == Throws
    ensures !k.NotFound? ==> forall j :: 0 <= j < k.index ==> ProbeResult(results[j], make, model, year) == Miss
    ensures k.NotFound? <==> forall j :: 0 <= j < |results| ==> ProbeResult(results[j], make, model, year) == Miss
  {
    if |results| == 0 then NotFound
    else
      var p := ProbeResult(results[0], make, model, year);
      if p == Hit then Found(0)
      else if p == Throws then Threw(0)
      else
        var rest := FindExactMatch(results[1..], make, model, year);
        assert forall j :: 1 <= j < |results| ==> results[1..][j - 1] == results[j];
        match rest
        case Found(i) => Found(i + 1)
        case Threw(i) => Threw(i + 1)
        case NotFound => NotFound
  }

  /** `getValueFromAPI`: `response` is the `results` array, or `None` when
      the request failed or carried no results. Only the first exact match
      counts, and only if it has a valuation; a throw in the search is
      caught and gives nothing. */
  function GetValueFromApi(response: Option<seq<ApiResult>>, make: string, model: string, year: int): (v: Option<ResaleValue>)
    ensures v.Some? <==> response.Some? && FindExactMatch(response.value, make, model, year).Found?
                         && response.value[FindExactMatch(response.value, make, model, year).index].valuation.Some?
    ensures v.Some? ==>
      var m := response.value[FindExactMatch(response.value, make, model, year).index].valuation.value;
      v.value == ResaleValue(m.low, m.high, m.average, "USD", "classic.com API", None)
  {
    if response.None? then None
    else
      var k := FindExactMatch(response.value, make, model, year);
      if !k.Found? then None
      else
        var hit := response.value[k.index];
        if hit.valuation.None? then None
        else
          var m := hit.valuation.value;
          Some(ResaleValue(m.low, m.high, m.average, "USD", "classic.com API", None))
  }

  /** A result missing its make, listed before an exact match that has a
      valuation, makes the whole API tier give nothing. */
  lemma MissingMakeHidesLaterMatch(results: seq<ApiResult>, make: string, model: string, year: int, k: nat)
    requires k < |results| && results[k].make.None?
    requires forall j :: 0 <= j < k ==> ProbeResult(results[j], make, model, year) == Miss
    ensures GetValueFromApi(Some(results), make, model, year).None?
  {
  }

  // ---------------------------------------------------------------------
  // The scraped-page tier.

  /** The characters `parsePrice` keeps: everything but '$' and ','. */
  predicate PriceChar(c: char) {
    c != '$' && c != ','
  }

  /** `parsePrice`: empty text is `null`; otherwise drop every '$' and ','
      and read a number (`None` also stands for NaN). */
  function ParsePrice(text: string): (p: Option<real>)
    ensures |text| == 0 ==> p.None?
    ensures p.Some? ==> p.value >= 0.0
  {
    if |text| == 0 then None
    else ParseFloat(Keep(text, PriceChar))
  }

  /** A dollar amount written as `$` followed by a numeral reads back as
      that amount. */
  lemma ParsePriceRoundTrip(n: nat)
    ensures ParsePrice("$" + ShowNat(n)) == Some(n as real)
  {
    var digits := ShowNat(n);
    KeepConcat("$", digits, PriceChar);
    KeepNone("$", PriceChar);
    KeepIdentity(digits, PriceChar);
    ParseNumeral(n, "");
    assert digits + "" == digits;
    assert Keep("$" + digits, PriceChar) == digits;
  }

  /** Inserting a '$' or ',' anywhere never changes the parsed price. */
  lemma ParsePriceIgnoresMarks(s: string, t: string, mark: char)
    requires mark == '$' || mark == ','
    ensures ParsePrice(s + [mark] + t) == ParsePrice(s + t)
  {
    var marked := s + [mark] + t;
    KeepConcat(s + [mark], t, PriceChar);
    KeepConcat(s, [mark], PriceChar);
    KeepConcat(s, t, PriceChar);
    KeepNone([mark], PriceChar);
    assert Keep(marked, PriceChar) == Keep(s + t, PriceChar);
    if |s + t| == 0 {
      assert Keep(s + t, PriceChar) == "";
    }
  }

  datatype WebItem = WebItem(make: string, model: string, yearText: string, priceText: string)

  /** The price an item contributes: after trimming white space from the
      make, model and year cells, the same make and model ignoring case,
      the same year, and a truthy price. */
  function ItemPrice(item: WebItem, make: string, model: string, year: int): (p: Option<real>)
    ensures p.Some? ==> p.value > 0.0
    ensures p.Some? ==> EqualsIgnoreCase(Trim(item.make), make) && EqualsIgnoreCase(Trim(item.model), model)
                        && ParseInt(Trim(item.yearText)) == Some(year) && p == ParsePrice(item.priceText)
  {
    var itemYear := ParseInt(Trim(item.yearText));
    var price := ParsePrice(item.priceText);
    if EqualsIgnoreCase(Trim(item.make), make) && EqualsIgnoreCase(Trim(item.model), model)
       && itemYear == Some(year) && Truthy(price)
    then price else None
  }

  /** White space around the make, model and year cells never changes what
      an item contributes. */
  lemma ItemPriceIgnoresPadding(item: WebItem, make: string, model: string, year: int)
    ensures ItemPrice(WebItem(Trim(item.make), Trim(item.model), Trim(item.yearText), item.priceText), make, model, year)
         == ItemPrice(item, make, model, year)
  {
    TrimIdempotent(item.make);
    TrimIdempotent(item.model);
    TrimIdempotent(item.yearText);
  }

  /** The prices of the matching items, in page order: every matching
      item's price is there, and every price comes from a matching item. */
  function MatchingPrices(items: seq<WebItem>, make: string, model: string, year: int): (prices: seq<real>)
    ensures |prices| <= |items|
    ensures forall i :: 0 <= i < |prices| ==> prices[i] > 0.0
    ensures forall i :: 0 <= i < |items| && ItemPrice(items[i], make, model, year).Some? ==>
      ItemPrice(items[i], make, model, year).value in prices
    ensures forall j :: 0 <= j < |prices| ==>
      exists i :: 0 <= i < |items| && ItemPrice(items[i], make, model, year) == Some(prices[j])
  {
    var f := PriceOf(make, model, year);
    PresentPositive(items, f);
    Present(items, f)
  }

  /** `ItemPrice` for one make, model and year, as a function of the item. */
  function PriceOf(make: string, model: string, year: int): (f: WebItem -> Option<real>)
    ensures forall item :: f(item) == ItemPrice(item, make, model, year)
  {
    (item: WebItem) => ItemPrice(item, make, model, year)
  }

  /** The prices are exactly one per matching item, in page order: the
      `k`-th price is the price of item `ix[k]`, the positions increase
      strictly, and every matching item's position is among them. */
  lemma {:induction false} MatchingPricesInPageOrder(items: seq<WebItem>, make: string, model: string, year: int)
    returns (ix: seq<nat>)
    ensures var prices := MatchingPrices(items, make, model, year);
      && |ix| == |prices|
      && (forall k :: 0 <= k < |ix| ==>
            ix[k] < |items| && ItemPrice(items[ix[k]], make, model, year) == Some(prices[k]))
      && (forall k, l :: 0 <= k < l < |ix| ==> ix[k] < ix[l])
      && (forall i :: 0 <= i < |items| && ItemPrice(items[i], make, model, year).Some? ==> i in ix)
  {
    ix := PresentPositions(items, PriceOf(make, model, year));
  }

  /** `ix` lists, in increasing order, the positions of `xs` where `f` gives
      a value, and `ys` holds those values in the same order. */
  ghost predicate PresentAt<T>(xs: seq<T>, f: T -> Option<real>, ys: seq<real>, ix: seq<nat>) {
    && |ix| == |ys|
    && (forall k :: 0 <= k < |ix| ==> ix[k] < |xs| && f(xs[ix[k]]) == Some(ys[k]))
    && (forall k, l :: 0 <= k < l < |ix| ==> ix[k] < ix[l])
    && (forall i :: 0 <= i < |xs| && f(xs[i]).Some? ==> i in ix)
  }

  /** `Present` keeps one value per position where `f` gives one, in order. */
  lemma {:induction false} PresentPositions<T>(xs: seq<T>, f: T -> Option<real>) returns (ix: seq<nat>)
    ensures PresentAt(xs, f, Present(xs, f), ix)
  {
    if |xs| == 0 {
      ix := [];
    } else {
      var ys := Present(xs[1..], f);
      var rest := PresentPositions(xs[1..], f);
      ix := ConsPresent(xs, f, ys, rest);
      assert Present(xs, f) == (if f(xs[0]).Some? then [f(xs[0]).value] else []) + ys;
    }
  }

  /** The positions for a tail extend to the whole sequence: shifted one
      place, with position 0 in front when `f` gives the head a value. */
  lemma ConsPresent<T>(xs: seq<T>, f: T -> Option<real>, ys: seq<real>, rest: seq<nat>) returns (ix: seq<nat>)
    requires |xs| > 0 && PresentAt(xs[1..], f, ys, rest)
    ensures PresentAt(xs, f, (if f(xs[0]).Some? then [f(xs[0]).value] else []) + ys, ix)
  {
    var shifted := ShiftPresent(xs, f, ys, rest);
    if f(xs[0]).Some? {
      ix := PrependPresent(xs, f, ys, shifted);
    } else {
      ix := shifted;
      assert [] + ys == ys;
      forall i | 0 <= i < |xs| && f(xs[i]).Some? ensures i in ix {
        assert i != 0;
      }
    }
  }

  /** Position 0 in front of the shifted tail positions, when the head has a value. */
  lemma PrependPresent<T>(xs: seq<T>, f: T -> Option<real>, ys: seq<real>, shifted: seq<nat>) returns (ix: seq<nat>)
    requires |xs| > 0 && f(xs[0]).Some? && |shifted| == |ys|
    requires forall k :: 0 <= k < |shifted| ==> 0 < shifted[k] < |xs| && f(xs[shifted[k]]) == Some(ys[k])
    requires forall k, l :: 0 <= k < l < |shifted| ==> shifted[k] < shifted[l]
    requires forall i :: 1 <= i < |xs| && f(xs[i]).Some? ==> i in shifted
    ensures PresentAt(xs, f, [f(xs[0]).value] + ys, ix)
  {
    var zs := [f(xs[0]).value] + ys;
    ix := [0] + shifted;
    forall k | 0 <= k < |ix| ensures ix[k] < |xs| && f(xs[ix[k]]) == Some(zs[k]) {
      if k > 0 {
        assert ix[k] == shifted[k - 1] && zs[k] == ys[k - 1];
      }
    }
    forall k, l | 0 <= k < l < |ix| ensures ix[k] < ix[l] {
      assert ix[l] == shifted[l - 1];
      if k > 0 {
        assert ix[k] == shifted[k - 1];
      }
    }
    forall i | 0 <= i < |xs| && f(xs[i]).Some? ensures i in ix {
      if i > 0 {
        var k :| 0 <= k < |shifted| && shifted[k] == i;
        assert ix[k + 1] == i;
      }
    }
  }

  /** Positions in the tail, moved one place right, are positions in the whole. */
  lemma ShiftPresent<T>(xs: seq<T>, f: T -> Option<real>, ys: seq<real>, rest: seq<nat>) returns (shifted: seq<nat>)
    requires |xs| > 0 && PresentAt(xs[1..], f, ys, rest)
    ensures |shifted| == |rest|
    ensures forall k :: 0 <= k < |shifted| ==> 0 < shifted[k] < |xs| && f(xs[shifted[k]]) == Some(ys[k])
    ensures forall k, l :: 0 <= k < l < |shifted| ==> shifted[k] < shifted[l]
    ensures forall i :: 1 <= i < |xs| && f(xs[i]).Some? ==> i in shifted
  {
    var tail := xs[1..];
    shifted := Shifted(rest);
    forall k | 0 <= k < |shifted|
      ensures 0 < shifted[k] < |xs| && f(xs[shifted[k]]) == Some(ys[k])
    {
      assert xs[shifted[k]] == tail[rest[k]];
    }
    forall k, l | 0 <= k < l < |shifted| ensures shifted[k] < shifted[l] {
      assert rest[k] < rest[l];
    }
    forall i | 1 <= i < |xs| && f(xs[i]).Some? ensures i in shifted {
      assert tail[i - 1] == xs[i];
      var k :| 0 <= k < |rest| && rest[k] == i - 1;
      assert shifted[k] == i;
    }
  }

  /** Every position moved one place right. */
  function Shifted(rest: seq<nat>): (s: seq<nat>)
    ensures |s| == |rest| && forall k :: 0 <= k < |s| ==> s[k] == rest[k] + 1
  {
    seq(|rest|, k requires 0 <= k < |rest| => rest[k] + 1)
  }

  /** Only positive values survive when `f` gives only positive values. */
  lemma PresentPositive<T>(xs: seq<T>, f: T -> Option<real>)
    requires forall x :: f(x).Some? ==> f(x).value > 0.0
    ensures forall j :: 0 <= j < |Present(xs, f)| ==> Present(xs, f)[j] > 0.0
  {
  }

  /** The values `f` gives, dropping the absent ones, in order. */
  function Present<T>(xs: seq<T>, f: T -> Option<real>): (ys: seq<real>)
    ensures |ys| <= |xs|
    ensures forall i :: 0 <= i < |xs| && f(xs[i]).Some? ==> f(xs[i]).value in ys
    ensures forall j :: 0 <= j < |ys| ==> exists i :: 0 <= i < |xs| && f(xs[i]) == Some(ys[j])
    ensures |ys| == 0 <==> forall i :: 0 <= i < |xs| ==> f(xs[i]).None?
  {
    if |xs| == 0 then []
    else
      var p := f(xs[0]);
      var rest := Present(xs[1..], f);
      assert forall i :: 1 <= i < |xs| ==> xs[i] == xs[1..][i - 1];
      var r := (if p.Some? then [p.value] else []) + rest;
      assert forall j :: 0 <= j < |rest| ==> rest[j] in r;
      assert forall j :: 0 <= j < |rest| ==> exists i :: 1 <= i < |xs| && f(xs[i]) == Some(rest[j]) by {
        forall j | 0 <= j < |rest| ensures exists i :: 1 <= i < |xs| && f(xs[i]) == Some(rest[j]) {
          var i :| 0 <= i < |xs[1..]| && f(xs[1..][i]) == Some(rest[j]);
          assert xs[i + 1] == xs[1..][i];
        }
      }
      r
  }

  function Sum(s: seq<real>): real {
    if |s| == 0 then 0.0 else s[0] + Sum(s[1..])
  }

  function MinOf(s: seq<real>): (m: real)
    requires |s| > 0
    ensures m in s && forall i :: 0 <= i < |s| ==> m <= s[i]
  {
    if |s| == 1 then s[0] else Min(s[0], MinOf(s[1..]))
  }

  function MaxOf(s: seq<real>): (m: real)
    requires |s| > 0
    ensures m in s && forall i :: 0 <= i < |s| ==> s[i] <= m
  {
    if |s| == 1 then s[0] else Max(s[0], MaxOf(s[1..]))
  }

  /** The mean lies between the least and the greatest element. */
  /** One more element at least the bound keeps the scaled bound. */
  lemma ScaledStep(m: real, k: real, x: real, y: real)
    requires m <= x && m * k <= y
    ensures m * (k + 1.0) <= x + y
  {
  }

  /** One more element at most the bound keeps the scaled bound. */
  lemma ScaledStepUp(m: real, k: real, x: real, y: real)
    requires x <= m && y <= m * k
    ensures x + y <= m * (k + 1.0)
  {
  }

  /** A lower bound on every element bounds the sum. */
  lemma {:induction false} SumAtLeast(s: seq<real>, b: real)
    requires forall i :: 0 <= i < |s| ==> b <= s[i]
    ensures b * |s| as real <= Sum(s)
  {
    if |s| > 0 {
      SumAtLeast(s[1..], b);
      ScaledStep(b, |s[1..]| as real, s[0], Sum(s[1..]));
    }
  }

  /** An upper bound on every element bounds the sum. */
  lemma {:induction false} SumAtMost(s: seq<real>, b: real)
    requires forall i :: 0 <= i < |s| ==> s[i] <= b
    ensures Sum(s) <= b * |s| as real
  {
    if |s| > 0 {
      SumAtMost(s[1..], b);
      ScaledStepUp(b, |s[1..]| as real, s[0], Sum(s[1..]));
    }
  }

  lemma NonPositiveFactor(x: real, n: real)
    requires n > 0.0 && x * n <= 0.0
    ensures x <= 0.0
  {
  }

  /** A lower bound on every element bounds the mean. */
  lemma MeanAtLeast(s: seq<real>, b: real)
    requires |s| > 0 && forall i :: 0 <= i < |s| ==> b <= s[i]
    ensures b <= Sum(s) / |s| as real
  {
    var n, total := |s| as real, Sum(s);
    SumAtLeast(s, b);
    var q := total / n;
    assert q * n == total;
    assert (b - q) * n == b * n - q * n;
    NonPositiveFactor(b - q, n);
  }

  /** An upper bound on every element bounds the mean. */
  lemma MeanAtMost(s: seq<real>, b: real)
    requires |s| > 0 && forall i :: 0 <= i < |s| ==> s[i] <= b
    ensures Sum(s) / |s| as real <= b
  {
    var n, total := |s| as real, Sum(s);
    SumAtMost(s, b);
    var q := total / n;
    assert q * n == total;
    assert (q - b) * n == q * n - b * n;
    NonPositiveFactor(q - b, n);
  }

  /** The mean lies between the least and the greatest element. */
  lemma MeanBetween(s: seq<real>)
    requires |s| > 0
    ensures MinOf(s) <= Sum(s) / |s| as real <= MaxOf(s)
  {
    MeanAtLeast(s, MinOf(s));
    MeanAtMost(s, MaxOf(s));
  }

  /** The sorted prices give low = min, high = max, average = mean. */
  function Aggregate(prices: seq<real>): (v: Option<ResaleValue>)
    ensures v.None? <==> |prices| == 0
    ensures v.Some? ==>
      && v.value.lowValue == Some(MinOf(prices))
      && v.value.highValue == Some(MaxOf(prices))
      && v.value.averageValue == Some(Sum(prices) / |prices| as real)
      && v.value.sampleSize == Some(|prices|)
      && v.value.source == "classic.com web"
      && OrderedEstimate(v.value)
  {
    if |prices| == 0 then None
    else
      MeanBetween(prices);
      Some(ResaleValue(Some(MinOf(prices)), Some(MaxOf(prices)), Some(Sum(prices) / |prices| as real),
                       "USD", "classic.com web", Some(|prices|)))
  }

  /** `getValueFromWeb`: `page` holds the result items, or `None` when the
      request failed. */
  function GetValueFromWeb(page: Option<seq<WebItem>>, make: string, model: string, year: int): (v: Option<ResaleValue>)
    ensures v.Some? ==> page.Some? && v == Aggregate(MatchingPrices(page.value, make, model, year))
    ensures v.Some? ==> OrderedEstimate(v.value) && v.value.averageValue.value > 0.0
    ensures v.Some? <==> page.Some? && exists i :: 0 <= i < |page.value| && ItemPrice(page.value[i], make, model, year).Some?
  {
    if page.None? then None
    else
      var prices := MatchingPrices(page.value, make, model, year);
      assert |prices| > 0 ==> MinOf(prices) > 0.0;
      Aggregate(prices)
  }

  // ---------------------------------------------------------------------
  // The cascade.

  /** What the two remote tiers answered for one car. */
  datatype TierResponses = TierResponses(api: Option<seq<ApiResult>>, web: Option<seq<WebItem>>)

  /** `getResaleValue`: the synthetic value (over the table as written)
      in mock mode; otherwise the API value, else the web value, else the
      synthetic value. */
  function GetResaleValue(useMock: bool, make: string, model: string, year: int, currentYear: int,
                          tiers: TierResponses, draw: Unit): (v: ResaleValue)
    ensures useMock ==> v == MockResaleValueAsWritten(make, model, year, currentYear, draw)
    ensures !useMock && GetValueFromApi(tiers.api, make, model, year).Some? ==>
      v == GetValueFromApi(tiers.api, make, model, year).value
    ensures !useMock && GetValueFromApi(tiers.api, make, model, year).None?
            && GetValueFromWeb(tiers.web, make, model, year).Some? ==>
      v == GetValueFromWeb(tiers.web, make, model, year).value
    ensures !useMock && GetValueFromApi(tiers.api, make, model, year).None?
            && GetValueFromWeb(tiers.web, make, model, year).None? ==>
      v == MockResaleValueAsWritten(make, model, year, currentYear, draw)
  {
    if useMock then MockResaleValueAsWritten(make, model, year, currentYear, draw)
    else
      var api := GetValueFromApi(tiers.api, make, model, year);
      if api.Some? then api.value
      else
        var web := GetValueFromWeb(tiers.web, make, model, year);
        if web.Some? then web.value
        else MockResaleValueAsWritten(make, model, year, currentYear, draw)
  }

  /** The provenance tag names the tier that answered, and only a remote
      API answer can lack a usable (truthy) average. */
  lemma CascadeProvenance(useMock: bool, make: string, model: string, year: int, currentYear: int,
                          tiers: TierResponses, draw: Unit)
    ensures var v := GetResaleValue(useMock, make, model, year, currentYear, tiers, draw);
      && (v.source == "classic.com API" <==> !useMock && GetValueFromApi(tiers.api, make, model, year).Some?)
      && (v.source == "classic.com web" <==>
            !useMock && GetValueFromApi(tiers.api, make, model, year).None?
            && GetValueFromWeb(tiers.web, make, model, year).Some?)
      && (v.source in {"mock data", "generated mock data"} <==>
            useMock || (GetValueFromApi(tiers.api, make, model, year).None?
                        && GetValueFromWeb(tiers.web, make, model, year).None?))
      && (v.source != "classic.com API" ==> Truthy(v.averageValue))
  {
    var v := GetResaleValue(useMock, make, model, year, currentYear, tiers, draw);
    assert "classic.com API" != "classic.com web";
    assert "classic.com API" != "mock data" && "classic.com API" != "generated mock data";
    assert "classic.com web" != "mock data" && "classic.com web" != "generated mock data";
  }

  // ---------------------------------------------------------------------
  // Batch enrichment.

  /** One car's enrichment: the remote answers, or an error thrown while
      processing it. Either way a synthetic draw is available. */
  datatype ItemOutcome = Answered(tiers: TierResponses, draw: Unit) | Failed(draw: Unit)

  function ValueForItem(useMock: bool, car: Listing, currentYear: int, outcome: ItemOutcome): ResaleValue {
    match outcome
    case Answered(tiers, draw) => GetResaleValue(useMock, car.make, car.model, car.year, currentYear, tiers, draw)
    case Failed(draw) => MockResaleValueAsWritten(car.make, car.model, car.year, currentYear, draw)
  }

  /** `batchGetValues`: one enriched car per input car, in the same order,
      each the input plus a valuation; a per-car error falls back to the
      synthetic value. Car `i` uses `outcomes(i)`. */
  function BatchGetValues(cars: seq<Listing>, useMock: bool, currentYear: int,
                          outcomes: nat -> ItemOutcome): (r: seq<EnrichedListing>)
    ensures |r| == |cars|
    ensures forall i :: 0 <= i < |r| ==> r[i].car == cars[i] && r[i].resaleValue.Some?
    ensures forall i :: 0 <= i < |r| && outcomes(i).Failed? ==>
      r[i].resaleValue.value == MockResaleValueAsWritten(cars[i].make, cars[i].model, cars[i].year, currentYear, outcomes(i).draw)
    ensures forall i :: 0 <= i < |r| && outcomes(i).Answered? ==>
      r[i].resaleValue.value == GetResaleValue(useMock, cars[i].make, cars[i].model, cars[i].year, currentYear,
                                               outcomes(i).tiers, outcomes(i).draw)
  {
    seq(|cars|, i requires 0 <= i < |cars| =>
      EnrichedListing(cars[i], Some(ValueForItem(useMock, cars[i], currentYear, outcomes(i)))))
  }
}
