/** The orchestrator: scrape the foreign market, value every listing,
    analyse it, and persist the profitable-to-know documents; and the
    periodic refresh of stale listings. */
module Pipeline {
  import opened Common
  import opened Domain
  import opened CarSchema
  import opened ProfitCalculator
  import ClassicScraper
  import JapanScraper
  import MockData
  import MongoStore
  import FileStorage

  // ---------------------------------------------------------------------
  // Documents.

  /** The natural key a listing is saved under. */
  function ListingKey(car: Listing): MongoStore.Key {
    MongoStore.Key(Some(car.make), Some(car.model), Some(car.year), Some(car.price), car.url)
  }

  /** The document saved for a valued and analysed listing. It sets the
      listing's own fields, the valuation and the analysis, and a fresh
      `lastUpdated`; it never sets `isActive` or the timestamps. */
  function ToDocument(car: Listing, v: ResaleValue, a: ProfitAnalysis, now: int): (d: Car)
    ensures MongoStore.KeyOf(d) == ListingKey(car)
    ensures d.isActive.None? && d.createdAt.None? && d.updatedAt.None?
    ensures HasRequiredFields(d)
    ensures d.estimatedDutiesTaxes == Some(a.costBreakdown.customsDuty + a.costBreakdown.vat)
    ensures d.estimatedProfit == Some(a.grossProfit) && d.lastUpdated == Some(now)
    ensures d.africaResaleValue == v.averageValue && d.resaleDataSource == Some(v.source)
    ensures d.profitMargin == Some(a.profitMargin) && d.profitabilityScore == Some(a.profitabilityScore)
    ensures d.estimatedTotalCost == Some(a.totalCost) && d.japanPrice == Some(car.price)
  {
    Car(
      make := Some(car.make), model := Some(car.model), year := Some(car.year), mileage := car.mileage,
      condition := car.condition,
      japanPrice := Some(car.price), japanCurrency := Some("JPY"), japanListingUrl := car.url,
      japanAuctionHouse := Some(car.source), japanListingDate := Some(car.scrapedAt),
      africaResaleValue := v.averageValue, africaCurrency := Some("USD"), resaleDataSource := Some(v.source),
      estimatedShippingCost := Some(a.costBreakdown.shipping),
      estimatedDutiesTaxes := Some(a.costBreakdown.customsDuty + a.costBreakdown.vat),
      estimatedTotalCost := Some(a.totalCost), estimatedProfit := Some(a.grossProfit),
      profitMargin := Some(a.profitMargin), profitabilityScore := Some(a.profitabilityScore),
      engineSize := car.engineSize, fuelType := car.fuelType, transmission := car.transmission,
      bodyType := car.bodyType, color := car.color,
      lastUpdated := Some(now), isActive := None, scrapingSource := Some(car.source),
      createdAt := None, updatedAt := None)
  }

  /** What the analysis reads of a listing. */
  function Priced(car: Listing): PricedCar {
    PricedCar(car.price, car.year, car.mileage)
  }

  /** A listing with a valuation the engine can analyse: one whose average
      or low value is present and non-zero. */
  predicate Analysable(e: EnrichedListing) {
    e.resaleValue.Some? && ExpectedResale(e.resaleValue.value).Some?
  }

  function CountAnalysable(es: seq<EnrichedListing>): (n: nat)
    ensures n <= |es|
  {
    if |es| == 0 then 0 else (if Analysable(es[0]) then 1 else 0) + CountAnalysable(es[1..])
  }

  function CountValued(es: seq<EnrichedListing>): (n: nat)
    ensures n <= |es|
  {
    if |es| == 0 then 0 else (if es[0].resaleValue.Some? then 1 else 0) + CountValued(es[1..])
  }

  /** The document for one listing, when it has a valuation and an
      analysis. */
  function DocumentFor(e: EnrichedListing, c: Calculator, currentYear: int, now: int): (d: Option<Car>)
    ensures d.Some? <==> Analysable(e)
    ensures d.Some? ==>
      && MongoStore.KeyOf(d.value) == ListingKey(e.car)
      && d.value.isActive.None? && d.value.createdAt.None? && d.value.updatedAt.None?
      && d.value.lastUpdated == Some(now)
      && d.value.profitabilityScore.Some? && 0 <= d.value.profitabilityScore.value <= 100
  {
    if e.resaleValue.None? then None
    else
      var a := CalculateProfitability(c, Some(Priced(e.car)), e.resaleValue, currentYear);
      if a.None? then None else Some(ToDocument(e.car, e.resaleValue.value, a.value, now))
  }

  /** The loop of `runFullScrape`: one document per listing that has a
      valuation and an analysis, in order. */
  function ProcessEnriched(es: seq<EnrichedListing>, c: Calculator, currentYear: int, now: int): (docs: seq<Car>)
    ensures |docs| == CountAnalysable(es)
    ensures forall i :: 0 <= i < |docs| ==>
      && docs[i].isActive.None? && docs[i].createdAt.None? && docs[i].updatedAt.None?
      && docs[i].lastUpdated == Some(now)
      && docs[i].profitabilityScore.Some? && 0 <= docs[i].profitabilityScore.value <= 100
  {
    if |es| == 0 then []
    else
      var rest := ProcessEnriched(es[1..], c, currentYear, now);
      var d := DocumentFor(es[0], c, currentYear, now);
      if d.None? then rest
      else
        var docs := [d.value] + rest;
        assert forall i :: 1 <= i < |docs| ==> docs[i] == rest[i - 1];
        docs
  }

  /** Every analysable listing's key is among the saved documents'. */
  lemma {:induction false} ProcessedKeysComplete(es: seq<EnrichedListing>, c: Calculator, currentYear: int, now: int,
                                                 docs: seq<Car>)
    requires docs == ProcessEnriched(es, c, currentYear, now)
    ensures forall j :: 0 <= j < |es| && Analysable(es[j]) ==>
      exists i :: 0 <= i < |docs| && MongoStore.KeyOf(docs[i]) == ListingKey(es[j].car)
  {
    if |es| > 0 {
      var rest := ProcessEnriched(es[1..], c, currentYear, now);
      ProcessedKeysComplete(es[1..], c, currentYear, now, rest);
      var d := DocumentFor(es[0], c, currentYear, now);
      var off := if d.Some? then 1 else 0;
      assert docs == (if d.Some? then [d.value] else []) + rest;
      forall j | 0 <= j < |es| && Analysable(es[j])
        ensures exists i :: 0 <= i < |docs| && MongoStore.KeyOf(docs[i]) == ListingKey(es[j].car)
      {
        if j == 0 {
          assert MongoStore.KeyOf(docs[0]) == ListingKey(es[0].car);
        } else {
          assert es[1..][j - 1] == es[j];
          var i :| 0 <= i < |rest| && MongoStore.KeyOf(rest[i]) == ListingKey(es[1..][j - 1].car);
          assert docs[i + off] == rest[i];
        }
      }
    }
  }

  /** Every saved document carries the key of an analysable listing. */
  lemma {:induction false} ProcessedKeysSound(es: seq<EnrichedListing>, c: Calculator, currentYear: int, now: int,
                                              docs: seq<Car>)
    requires docs == ProcessEnriched(es, c, currentYear, now)
    ensures forall i :: 0 <= i < |docs| ==> SourcedKey(es, MongoStore.KeyOf(docs[i]))
  {
    if |es| > 0 {
      var rest := ProcessEnriched(es[1..], c, currentYear, now);
      ProcessedKeysSound(es[1..], c, currentYear, now, rest);
      SourcedKeyTail(es);
      var d := DocumentFor(es[0], c, currentYear, now);
      if d.Some? {
        assert docs == [d.value] + rest;
        assert Analysable(es[0]) && MongoStore.KeyOf(d.value) == ListingKey(es[0].car);
        assert forall i :: 1 <= i < |docs| ==> docs[i] == rest[i - 1];
      }
    }
  }

  /** Some analysable listing has the key. */
  ghost predicate SourcedKey(es: seq<EnrichedListing>, k: MongoStore.Key) {
    exists j :: 0 <= j < |es| && Analysable(es[j]) && ListingKey(es[j].car) == k
  }

  lemma SourcedKeyTail(es: seq<EnrichedListing>)
    requires |es| > 0
    ensures forall k :: SourcedKey(es[1..], k) ==> SourcedKey(es, k)
  {
    forall k | SourcedKey(es[1..], k) ensures SourcedKey(es, k) {
      var j :| 0 <= j < |es[1..]| && Analysable(es[1..][j]) && ListingKey(es[1..][j].car) == k;
      assert es[1..][j] == es[j + 1];
    }
  }

  // ---------------------------------------------------------------------
  // Saving.

  /** Where documents go: the JSON file, or the database collection. */
  datatype Storage = FileBacked(store: FileStorage.Store) | DatabaseBacked(collection: MongoStore.Collection)

  /** `saveCarsToDatabase`: append to the file (as the file store's
      `saveCars` is written), or one upsert per document keyed on the
      natural key (no request at all for an empty batch). The file keeps
      what it held and gains one record per document, numbered on; the
      database gains at most one record per document, keeps every record's
      identifier and key, and afterwards holds every document's key. Both
      keep identifiers unique. */
  function SaveCarsToDatabase(st: Storage, docs: seq<Car>, now: int): (r: Storage)
    ensures r.FileBacked? <==> st.FileBacked?
    ensures st.FileBacked? ==>
      && |r.store.records| == |st.store.records| + |docs|
      && r.store.records[..|st.store.records|] == st.store.records
      && r.store.nextId == st.store.nextId + |docs|
      && (forall i :: |st.store.records| <= i < |r.store.records| ==>
            && r.store.records[i].id == st.store.nextId + (i - |st.store.records|)
            && r.store.records[i].car.isActive == docs[i - |st.store.records|].isActive)
      && (FileStorage.Valid(st.store) ==> FileStorage.Valid(r.store))
    ensures st.DatabaseBacked? ==>
      && |st.collection.records| <= |r.collection.records| <= |st.collection.records| + |docs|
      && (MongoStore.Valid(st.collection) ==>
            && MongoStore.Valid(r.collection)
            && (forall j :: 0 <= j < |docs| ==> MongoStore.HasKey(r.collection.records, MongoStore.KeyOf(docs[j])))
            && (forall i :: 0 <= i < |st.collection.records| ==>
                  r.collection.records[i].id == st.collection.records[i].id
                  && MongoStore.KeyOf(r.collection.records[i].car) == MongoStore.KeyOf(st.collection.records[i].car)))
    ensures |docs| == 0 ==> r == st
  {
    match st
    case FileBacked(s) =>
      FileSaveValid(s, docs, now);
      FileBacked(FileStorage.SaveCarsAsWritten(s, docs, now))
    case DatabaseBacked(c) =>
      DatabaseSaveValid(c, docs, now);
      if |docs| > 0 then DatabaseBacked(MongoStore.UpsertAll(c, docs, now)) else st
  }

  lemma FileSaveValid(s: FileStorage.Store, docs: seq<Car>, now: int)
    ensures FileStorage.Valid(s) ==> FileStorage.Valid(FileStorage.SaveCarsAsWritten(s, docs, now))
  {
    if FileStorage.Valid(s) {
      FileStorage.SaveCarsValid(s, docs, now);
    }
  }

  lemma DatabaseSaveValid(c: MongoStore.Collection, docs: seq<Car>, now: int)
    ensures MongoStore.Valid(c) ==>
      var r := MongoStore.UpsertAll(c, docs, now);
      && MongoStore.Valid(r)
      && (forall j :: 0 <= j < |docs| ==> MongoStore.HasKey(r.records, MongoStore.KeyOf(docs[j])))
      && (forall i :: 0 <= i < |c.records| ==>
            r.records[i].id == c.records[i].id && MongoStore.KeyOf(r.records[i].car) == MongoStore.KeyOf(c.records[i].car))
  {
    if MongoStore.Valid(c) {
      MongoStore.UpsertAllProperties(c, docs, now);
    }
  }

  /** The figures `runFullScrape` reports. */
  datatype RunStats = RunStats(totalScraped: nat, withResaleData: nat, saved: nat)

  /** What the outside world answers during one full run: the browser, the
      two listing sources, the valuation services per car, and the random
      draws of the synthetic generators. */
  datatype World = World(
    launchSucceeds: bool,
    goo: JapanScraper.GooOutcome,
    uss: Option<seq<JapanScraper.UssItem>>,
    carDraws: nat -> MockData.CarDraw,
    valuations: nat -> ClassicScraper.ItemOutcome)

  /** The listings a run scrapes. */
  function ScrapedCars(envMock: bool, w: World, currentYear: int, now: int): seq<Listing> {
    JapanScraper.ScrapeAll(JapanScraper.Initialize(envMock, w.launchSucceeds), w.goo, w.uss, currentYear, now, w.carDraws)
  }

  /** The documents a run saves: one per scraped listing the valuation and
      the analysis go through. */
  function RunDocuments(c: Calculator, envMock: bool, w: World, currentYear: int, now: int): seq<Car> {
    ProcessEnriched(ClassicScraper.BatchGetValues(ScrapedCars(envMock, w, currentYear, now), envMock, currentYear,
                                                  w.valuations), c, currentYear, now)
  }

  /** `runFullScrape`: scrape, value, analyse, save. The store afterwards
      is the given store with the run's documents saved; the figures count
      the scraped listings (every one of them valued) and the saved
      documents. */
  function RunFullScrape(st: Storage, c: Calculator, envMock: bool, w: World, currentYear: int, now: int)
    : (r: (Storage, RunStats))
    ensures r.0 == SaveCarsToDatabase(st, RunDocuments(c, envMock, w, currentYear, now), now)
    ensures r.1.totalScraped == |ScrapedCars(envMock, w, currentYear, now)| > 0
    ensures r.1.withResaleData == r.1.totalScraped
    ensures r.1.saved == |RunDocuments(c, envMock, w, currentYear, now)| <= r.1.withResaleData
    ensures st.FileBacked? ==> |r.0.store.records| == |st.store.records| + r.1.saved
  {
    var japanMock := JapanScraper.Initialize(envMock, w.launchSucceeds);
    var cars := JapanScraper.ScrapeAll(japanMock, w.goo, w.uss, currentYear, now, w.carDraws);
    var enriched := ClassicScraper.BatchGetValues(cars, envMock, currentYear, w.valuations);
    var docs := ProcessEnriched(enriched, c, currentYear, now);
    AllValued(enriched);
    AnalysableAtMostValued(enriched);
    JapanScraper.ScrapeAllProvenance(japanMock, w.goo, w.uss, currentYear, now, w.carDraws);
    (SaveCarsToDatabase(st, docs, now), RunStats(|cars|, CountValued(enriched), |docs|))
  }

  lemma {:induction false} AllValued(es: seq<EnrichedListing>)
    requires forall i :: 0 <= i < |es| ==> es[i].resaleValue.Some?
    ensures CountValued(es) == |es|
  {
    if |es| > 0 {
      AllValued(es[1..]);
    }
  }

  lemma {:induction false} AnalysableAtMostValued(es: seq<EnrichedListing>)
    ensures CountAnalysable(es) <= CountValued(es)
  {
    if |es| > 0 {
      AnalysableAtMostValued(es[1..]);
    }
  }

  /** A synthetic valuation always has a truthy average, so every listing
      valued by a fallback tier is analysed and saved. */
  lemma FallbackValuesAreAnalysable(useMock: bool, car: Listing, currentYear: int,
                                    o: ClassicScraper.ItemOutcome)
    requires o.Failed? || useMock
    ensures Analysable(EnrichedListing(car, Some(ClassicScraper.ValueForItem(useMock, car, currentYear, o))))
  {
    var v := ClassicScraper.ValueForItem(useMock, car, currentYear, o);
    match o
    case Answered(tiers, draw) =>
      ClassicScraper.CascadeProvenance(useMock, car.make, car.model, car.year, currentYear, tiers, draw);
    case Failed(draw) =>
      ClassicScraper.CascadeProvenance(true, car.make, car.model, car.year, currentYear,
                                       ClassicScraper.TierResponses(None, None), draw);
  }

  /** Against the database, every analysed listing is stored under its key
      afterwards, and running again on the same listings adds no record. */
  lemma DatabaseRunStoresEveryKey(c: MongoStore.Collection, es: seq<EnrichedListing>, engine: Calculator,
                                  currentYear: int, now: int, later: int)
    requires MongoStore.Valid(c)
    ensures var docs := ProcessEnriched(es, engine, currentYear, now);
      var r := SaveCarsToDatabase(DatabaseBacked(c), docs, now).collection;
      && MongoStore.Valid(r)
      && (forall j :: 0 <= j < |es| && Analysable(es[j]) ==> MongoStore.HasKey(r.records, ListingKey(es[j].car)))
      && |SaveCarsToDatabase(DatabaseBacked(r), docs, later).collection.records| == |r.records|
  {
    var docs := ProcessEnriched(es, engine, currentYear, now);
    var r := MongoStore.UpsertAll(c, docs, now);
    assert SaveCarsToDatabase(DatabaseBacked(c), docs, now).collection == r;
    MongoStore.UpsertAllProperties(c, docs, now);
    ProcessedKeysComplete(es, engine, currentYear, now, docs);
    forall j | 0 <= j < |es| && Analysable(es[j]) ensures MongoStore.HasKey(r.records, ListingKey(es[j].car)) {
      var i :| 0 <= i < |docs| && MongoStore.KeyOf(docs[i]) == ListingKey(es[j].car);
      assert MongoStore.HasKey(r.records, MongoStore.KeyOf(docs[i]));
    }
    MongoStore.ResaveAddsNoRecords(r, docs, later);
  }

  /** Against the file store, a run saves one record per analysed listing
      and yet changes no read of active listings: the saved documents do
      not set `isActive`, and the file store applies no default. */
  lemma FileRunListsNothingAsWritten(s: FileStorage.Store, es: seq<EnrichedListing>, engine: Calculator,
                                     currentYear: int, now: int)
    ensures var docs := ProcessEnriched(es, engine, currentYear, now);
      var r := SaveCarsToDatabase(FileBacked(s), docs, now).store;
      && FileStorage.GetCars(r, FileStorage.ActiveOnly, FileStorage.NoOptions)
         == FileStorage.GetCars(s, FileStorage.ActiveOnly, FileStorage.NoOptions)
      && |r.records| == |s.records| + CountAnalysable(es)
  {
    var docs := ProcessEnriched(es, engine, currentYear, now);
    FileStorage.SavedListingsHiddenAsWritten(s, docs, now);
  }

  /** Re-scraping a listing that the cleanup deactivated leaves it
      inactive: the saved document never sets `isActive`. */
  lemma RescrapeKeepsDeactivated(c: MongoStore.Collection, car: Listing, v: ResaleValue, a: ProfitAnalysis,
                                 now: int, i: nat)
    requires i < |c.records| && c.records[i].car.isActive == Some(false)
    requires MongoStore.FindByKey(c.records, ListingKey(car)) == Some(i)
    ensures MongoStore.UpsertOne(c, ToDocument(car, v, a, now), now).records[i].car.isActive == Some(false)
  {
  }

  // ---------------------------------------------------------------------
  // The refresh of stale listings.

  /** The batch `updateExistingCars` works on: the first 50 stale
      listings. */
  function RefreshCandidates(rs: seq<Record>, now: int): (cands: seq<Record>)
    ensures |cands| <= 50
    ensures forall i :: 0 <= i < |cands| ==> cands[i] in rs && ActiveOlderThan(now, 1, cands[i].car)
    ensures Count(rs, StaleFor(now, 1)) <= 50 ==> cands == Where(rs, StaleFor(now, 1))
  {
    var all := Where(rs, StaleFor(now, 1));
    CountIsWhereLength(rs, StaleFor(now, 1));
    if |all| <= 50 then all
    else
      assert forall i :: 0 <= i < 50 ==> all[..50][i] == all[i];
      all[..50]
  }

  /** What refreshing one listing meets: the valuation services' answers
      and a draw, or an error that skips the listing. */
  datatype RefreshOutcome = Refreshed(tiers: ClassicScraper.TierResponses, draw: Unit) | Errored

  /** The fields a refresh writes. */
  function RefreshFields(v: ResaleValue, a: ProfitAnalysis, now: int): (d: Car)
    ensures MongoStore.KeyOf(d) == MongoStore.Key(None, None, None, None, None)
    ensures d.isActive.None? && d.createdAt.None? && d.lastUpdated == Some(now)
  {
    EmptyCar.(africaResaleValue := v.averageValue, estimatedProfit := Some(a.grossProfit),
              profitMargin := Some(a.profitMargin), profitabilityScore := Some(a.profitabilityScore),
              lastUpdated := Some(now))
  }

  /** The analysis a refresh computes for a stored listing, if any: none
      when the record lacks a required field, or the valuation gives the
      engine nothing to work with. */
  function Reanalyse(car: Car, c: Calculator, useMock: bool, currentYear: int, tiers: ClassicScraper.TierResponses,
                     draw: Unit): (r: Option<(ResaleValue, ProfitAnalysis)>)
    ensures r.Some? ==> HasRequiredFields(car)
  {
    if !HasRequiredFields(car) then None
    else
      var v := ClassicScraper.GetResaleValue(useMock, car.make.value, car.model.value, car.year.value,
                                             currentYear, tiers, draw);
      var a := CalculateProfitability(c, Some(PricedCar(car.japanPrice.value, car.year.value, car.mileage)),
                                      Some(v), currentYear);
      if a.None? then None else Some((v, a.value))
  }

  /** `after` differs from `before` at most in the four analysis fields and
      the two time stamps, which are both `now`. */
  predicate RefreshFrame(before: Car, after: Car, now: int) {
    after == before.(africaResaleValue := after.africaResaleValue, estimatedProfit := after.estimatedProfit,
                     profitMargin := after.profitMargin, profitabilityScore := after.profitabilityScore,
                     lastUpdated := Some(now), updatedAt := Some(now))
  }

  /** `after` is `before` with the valuation's average (when it has one)
      and the analysis's profit, margin and score written, stamped `now`. */
  ghost predicate WritesAnalysis(before: Car, after: Car, v: ResaleValue, a: ProfitAnalysis, now: int) {
    && RefreshFrame(before, after, now)
    && Overwrites(v.averageValue, before.africaResaleValue, after.africaResaleValue)
    && after.estimatedProfit == Some(a.grossProfit)
    && after.profitMargin == Some(a.profitMargin)
    && after.profitabilityScore == Some(a.profitabilityScore)
  }

  /** Frames compose: two refreshes at the same time are one. */
  lemma RefreshFrameTransitive(a: Car, b: Car, c: Car, now: int)
    requires RefreshFrame(a, b, now) && RefreshFrame(b, c, now)
    ensures RefreshFrame(a, c, now)
  {
  }

  /** `findByIdAndUpdate` with the refresh's fields writes the analysis and nothing else. */
  lemma UpdateWritesAnalysis(before: Car, v: ResaleValue, a: ProfitAnalysis, now: int)
    ensures WritesAnalysis(before, MongoStore.Updated(before, RefreshFields(v, a, now), now), v, a, now)
  {
  }

  /** One iteration of the refresh loop. An error, a record lacking a
      required field or a valuation the engine cannot use leaves the
      records as they were; otherwise the record with the candidate's id
      gets the new valuation and analysis, and no other record changes. */
  function RefreshOne(rs: seq<Record>, cand: Record, c: Calculator, useMock: bool, currentYear: int, now: int,
                      o: RefreshOutcome): (r: seq<Record>)
    ensures |r| == |rs|
    ensures forall i :: 0 <= i < |rs| ==> r[i].id == rs[i].id && MongoStore.KeyOf(r[i].car) == MongoStore.KeyOf(rs[i].car)
    ensures forall i :: 0 <= i < |rs| ==>
      r[i] == rs[i] || (rs[i].id == cand.id && RefreshFrame(rs[i].car, r[i].car, now))
    ensures o.Errored? ==> r == rs
    ensures o.Refreshed? ==>
      var va := Reanalyse(cand.car, c, useMock, currentYear, o.tiers, o.draw);
      && (va.None? ==> r == rs)
      && (va.Some? ==> forall i :: 0 <= i < |rs| && rs[i].id == cand.id ==>
            WritesAnalysis(rs[i].car, r[i].car, va.value.0, va.value.1, now))
  {
    match o
    case Errored => rs
    case Refreshed(tiers, draw) =>
      var va := Reanalyse(cand.car, c, useMock, currentYear, tiers, draw);
      if va.None? then rs
      else
        var fields := RefreshFields(va.value.0, va.value.1, now);
        var r := MongoStore.UpdateById(rs, cand.id, fields, now);
        forall i | 0 <= i < |rs| && rs[i].id == cand.id
          ensures WritesAnalysis(rs[i].car, r[i].car, va.value.0, va.value.1, now)
        {
          UpdateWritesAnalysis(rs[i].car, va.value.0, va.value.1, now);
        }
        r
  }

  /** `updateExistingCars`: each candidate in turn; candidate `k` meets
      `outcomes(k)`. */
  function RefreshAll(rs: seq<Record>, cands: seq<Record>, c: Calculator, useMock: bool, currentYear: int,
                      now: int, outcomes: nat -> RefreshOutcome, k: nat): (r: seq<Record>)
    ensures |r| == |rs|
    ensures forall i :: 0 <= i < |rs| ==> r[i].id == rs[i].id && MongoStore.KeyOf(r[i].car) == MongoStore.KeyOf(rs[i].car)
    ensures forall i :: 0 <= i < |rs| ==>
      r[i] == rs[i] || ((exists j :: 0 <= j < |cands| && cands[j].id == rs[i].id) && RefreshFrame(rs[i].car, r[i].car, now))
    ensures (forall n :: k <= n < k + |cands| ==> outcomes(n).Errored?) ==> r == rs
    decreases |cands|
  {
    if |cands| == 0 then rs
    else
      var r1 := RefreshOne(rs, cands[0], c, useMock, currentYear, now, outcomes(k));
      var r := RefreshAll(r1, cands[1..], c, useMock, currentYear, now, outcomes, k + 1);
      forall i | 0 <= i < |rs| && r[i] != rs[i] ensures RefreshFrame(rs[i].car, r[i].car, now) {
        if r[i] == r1[i] {
          assert r1[i] != rs[i];
        } else if r1[i] != rs[i] {
          RefreshFrameTransitive(rs[i].car, r1[i].car, r[i].car, now);
        }
      }
      forall i | 0 <= i < |rs| && r[i] != rs[i]
        ensures exists j :: 0 <= j < |cands| && cands[j].id == rs[i].id
      {
        if r[i] == r1[i] {
          assert cands[0].id == rs[i].id;
        } else {
          var j :| 0 <= j < |cands[1..]| && cands[1..][j].id == r1[i].id;
          assert cands[j + 1].id == rs[i].id;
        }
      }
      r
  }

  /** The refresh run against the database: the first 50 stale listings,
      each revalued and reanalysed. */
  function UpdateExistingCars(col: MongoStore.Collection, c: Calculator, useMock: bool, currentYear: int, now: int,
                              outcomes: nat -> RefreshOutcome): (r: MongoStore.Collection)
    ensures r.nextId == col.nextId && |r.records| == |col.records|
    ensures forall i :: 0 <= i < |col.records| ==>
      r.records[i].id == col.records[i].id && MongoStore.KeyOf(r.records[i].car) == MongoStore.KeyOf(col.records[i].car)
    ensures forall i :: 0 <= i < |col.records| ==>
      || r.records[i] == col.records[i]
      || ((exists j :: 0 <= j < |col.records| && col.records[j].id == col.records[i].id
                       && ActiveOlderThan(now, 1, col.records[j].car))
          && RefreshFrame(col.records[i].car, r.records[i].car, now))
    ensures (forall n :: 0 <= n < 50 ==> outcomes(n).Errored?) ==> r == col
  {
    var cands := RefreshCandidates(col.records, now);
    var rs := RefreshAll(col.records, cands, c, useMock, currentYear, now, outcomes, 0);
    forall i | 0 <= i < |col.records| && rs[i] != col.records[i]
      ensures exists j :: 0 <= j < |col.records| && col.records[j].id == col.records[i].id
                          && ActiveOlderThan(now, 1, col.records[j].car)
    {
      var j :| 0 <= j < |cands| && cands[j].id == col.records[i].id;
      var m :| 0 <= m < |col.records| && col.records[m] == cands[j];
      assert ActiveOlderThan(now, 1, col.records[m].car);
    }
    MongoStore.Collection(rs, col.nextId)
  }

  /** The refresh changes no identifier or natural key, touches only
      stale listings and in them only the four analysis fields and the
      time stamps, and a listing it touches is no longer stale. */
  lemma RefreshTouchesOnlyStale(col: MongoStore.Collection, c: Calculator, useMock: bool, currentYear: int,
                                now: int, outcomes: nat -> RefreshOutcome)
    requires MongoStore.Valid(col)
    ensures var r := UpdateExistingCars(col, c, useMock, currentYear, now, outcomes);
      && MongoStore.Valid(r)
      && (forall i :: 0 <= i < |r.records| ==>
            r.records[i].id == col.records[i].id
            && MongoStore.KeyOf(r.records[i].car) == MongoStore.KeyOf(col.records[i].car))
      && (forall i :: 0 <= i < |r.records| && r.records[i] != col.records[i] ==>
            && ActiveOlderThan(now, 1, col.records[i].car) && !ActiveOlderThan(now, 1, r.records[i].car)
            && RefreshFrame(col.records[i].car, r.records[i].car, now))
  {
    var cands := RefreshCandidates(col.records, now);
    var r := UpdateExistingCars(col, c, useMock, currentYear, now, outcomes);
    forall i | 0 <= i < |r.records| && r.records[i] != col.records[i]
      ensures ActiveOlderThan(now, 1, col.records[i].car) && !ActiveOlderThan(now, 1, r.records[i].car)
    {
      var j :| 0 <= j < |cands| && cands[j].id == col.records[i].id;
      assert cands[j] in col.records;
      var m :| 0 <= m < |col.records| && col.records[m] == cands[j];
      assert m == i;
    }
  }
}
