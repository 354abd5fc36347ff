# CarTrack arbitrage core, modelled in Dafny

CarTrack looks for used cars that are cheap in Japan and could be resold
in Africa at a profit. This project models its core:

- the **scraper pipeline** (`scraper/`):
  - Japanese listings come from Goo-net and USS Auction, or from a synthetic
    generator;
  - each listing gets a resale valuation from the classic.com API, then its
    web pages, then a synthetic fallback;
  - the profit engine computes landed cost, profit, margin, ROI, a 0–100
    score and a risk level;
  - the documents are saved to the JSON-file store or upserted into the
    database;
  - a periodic refresh revalues the stale listings;
- the **scheduler** (`scheduler/index.js`): four cron jobs, their execution
  log, the exchange-rate update, the weekly cleanup and the job registry;
- the **storage layer** (`backend/models/`): the listing schema with its
  defaults, and the file store with its filtering, sorting, pagination and
  statistics;
- the **HTTP routes** (`backend/routes/cars.js`, `backend/routes/admin.js`):
  - the paginated listing on either store;
  - the best-scored listings, one listing by id, and the summary statistics;
  - the admin dashboard, health check, configuration validation and manual
    cleanup.

## How it is modelled

- Every operation is a pure function over immutable datatypes.
- The database collection is a sequence of `Record`s (an id and a `Car`)
  in natural order. `MongoStore` gives the driver operations the code uses
  (`find`/`sort`/`limit`, `updateOne` with upsert, `updateMany`,
  `deleteMany`, `findByIdAndUpdate`).
- A `Car` field is `None` when it is absent or `null`.
- Money is an exact `real`. `Math.round` is `Floor(x + 0.5)`.
- A JavaScript division that can give a non-finite result (margin, ROI,
  `totalPages`) returns a `Num`: `Finite`, `PosInf`, `NegInf` or `NaN`.
- The environment is passed in as parameters:
  - the clock, as `now` in milliseconds and `currentYear`;
  - `Math.random()`, as a stream of draws in [0, 1);
  - the network (pages, API responses, a failed browser launch);
  - the `USE_MOCK_DATA` switch, as a boolean.
- Modules follow the source files:

| module | models |
|---|---|
| `Common`, `Text`, `Sorting`, `Grouping` | shared vocabulary: `Option`, `Num`, rounding; `parseInt`/`parseFloat`/`trim`/`toLowerCase`; a stable sort; counting by key |
| `Domain` | listings and valuations as the scrapers produce them |
| `ProfitCalculator` | `scraper/profitCalculator.js` |
| `MockData` | `scraper/mockDataScraper.js` |
| `ClassicScraper` | `scraper/classicScraper.js` |
| `JapanScraper` | `scraper/japanScraper.js` |
| `Pipeline` | `scraper/index.js` |
| `CarSchema` | `backend/models/Car.js` and the query predicates built on it |
| `MongoStore` | the database operations the routes, pipeline and scheduler use |
| `FileStorage` | `backend/models/FileStorage.js` |
| `Scheduler` | `scheduler/index.js` |
| `AdminRoutes` | `backend/routes/admin.js` |
| `CarRoutes` | `backend/routes/cars.js` |

## Model

| member | source | states |
|---|---|---|
| ProfitCalculator.UpdateCostParameters | scraper/profitCalculator.js:153-155 | every cost field the update sets takes the new value; every other field keeps its old value; the exchange rates are untouched |
| ProfitCalculator.UpdateExchangeRates | scraper/profitCalculator.js:149-151 | each rate the update sets is replaced and the other kept; cost parameters untouched |
| ProfitCalculator.CostUpdateAlgebra | scraper/profitCalculator.js:153-155 | an empty update is the identity; two updates in a row equal one merged update (the later value wins); applying an update twice is applying it once |
| ProfitCalculator.RateUpdateAlgebra | scraper/profitCalculator.js:149-151 | an empty rate update is the identity; two updates in a row equal one update carrying the later value of each rate |
| ProfitCalculator.ConvertJpyToUsd | scraper/profitCalculator.js:141-143 | zero yen is zero dollars, and a positive rate keeps the sign of the amount |
| ProfitCalculator.ConvertUsdToJpy | scraper/profitCalculator.js:145-147 | zero dollars is zero yen, and a positive rate keeps the sign of the amount |
| ProfitCalculator.ConversionLinear | scraper/profitCalculator.js:141-147 | both conversions are additive and commute with scaling |
| ProfitCalculator.ConversionMonotone | scraper/profitCalculator.js:141-147 | under a non-negative rate a larger amount never converts to less |
| ProfitCalculator.ConversionRoundTrip | scraper/profitCalculator.js:141-147 | when the two rates are reciprocal, yen→USD→yen and USD→yen→USD are the identity |
| ProfitCalculator.DefaultRatesNotReciprocal | scraper/profitCalculator.js:16-19 | (example) the built-in rates 0.0067 and 149.25 are not reciprocal (product 0.999975), so 1,000,000 yen converted there and back is 999,975 yen |
| ProfitCalculator.CalculateAllCosts | scraper/profitCalculator.js:77-98 | shipping, clearance, transport and documentation are the configured flat fees; insurance and duty are the value times their rates; VAT is charged on the duty-inclusive value; the additional costs are the sum of the seven fees, which is the fixed fees plus the value times the sum of the insurance, duty and duty-inclusive VAT rates |
| ProfitCalculator.VatOnDutyInclusiveValue | scraper/profitCalculator.js:79-81 | (example) at the default rates, a 100000 USD car pays 25000 duty and 18750 VAT, which differs from 15% of the bare value |
| ProfitCalculator.MarginPoints | scraper/profitCalculator.js:104-107 | the margin band contributes at most 40 points |
| ProfitCalculator.ProfitPoints | scraper/profitCalculator.js:110-114 | the gross-profit band contributes at most 30 points |
| ProfitCalculator.RoiPoints | scraper/profitCalculator.js:117-120 | the ROI band contributes at most 20 points |
| ProfitCalculator.AgePoints | scraper/profitCalculator.js:123-125 | the age band contributes at most 5 points |
| ProfitCalculator.MileagePoints | scraper/profitCalculator.js:127-129 | a missing or zero mileage earns nothing; otherwise 5/3/1/0 points by the 50000/100000/150000 km thresholds |
| ProfitCalculator.CalculateProfitabilityScore | scraper/profitCalculator.js:100-132 | the score lies in 0..100 and equals the unclamped sum of the five band points, so the clamp never bites |
| ProfitCalculator.ScoreMonotone | scraper/profitCalculator.js:100-132 | a better margin, profit and ROI and a younger car (same mileage) never lower the score |
| ProfitCalculator.MileagePointsMonotone | scraper/profitCalculator.js:127-129 | more kilometres never earn more points |
| ProfitCalculator.RecommendedIffLowOrMediumRisk | scraper/profitCalculator.js:67-68 | a car is recommended exactly when its risk level is Low or Medium |
| ProfitCalculator.RiskMonotone | scraper/profitCalculator.js:134-139 | a higher score and a higher margin never raise the risk level |
| ProfitCalculator.AssessRiskLevel | scraper/profitCalculator.js:134-139 | Low exactly when score ≥ 80 and margin ≥ 25; Low or Medium exactly when score ≥ 60 and margin ≥ 15; anything but Very High exactly when score ≥ 40 and margin ≥ 10 |
| ProfitCalculator.LandedCostMonotone | scraper/profitCalculator.js:29-35 | with non-negative rates, a dearer car never costs less to land |
| ProfitCalculator.ExpectedResale | scraper/profitCalculator.js:38-42 | the average value if truthy, else the low value if truthy, else none; a chosen value is never 0 |
| ProfitCalculator.CalculateProfitability | scraper/profitCalculator.js:22-75 | an analysis exists exactly when both inputs do and a resale value is usable; profit = resale − landed cost; margin and ROI are the JS quotients; the score is the band score of this margin, profit, ROI, age and mileage; the risk level is the one assessed from that score and margin; the cost breakdown is the one for this dollar price; recommended ⇔ score ≥ 60 and margin ≥ 15 ⇔ Low or Medium risk |
| ProfitCalculator.ProfitFallsWithPrice | scraper/profitCalculator.js:22-47 | with everything else fixed, a dearer listing never yields more gross profit |
| ProfitCalculator.GoldenScenario | scraper/profitCalculator.js:22-75 | (example) 2,000,000 yen, 5 years, 40000 km, resale 20000: cost 22030.5, loss 2030.5, score 10, not recommended, Very High risk |
| MockData.ModelsOf | scraper/mockDataScraper.js:13-21 | every make the generator picks has a non-empty model list |
| MockData.RandomElement | scraper/mockDataScraper.js:58-60 | the picked element belongs to the array |
| MockData.RandomYear | scraper/mockDataScraper.js:62-72 | the year lies between 2010 and the current year whenever the current year is at least 2010 |
| MockData.RandomMileage | scraper/mockDataScraper.js:74-78 | a whole number of kilometres below 200000 |
| MockData.MileageFactor | scraper/mockDataScraper.js:104 | the factor lies in [0.5, 1] for a non-negative mileage |
| MockData.RandomFactor | scraper/mockDataScraper.js:108 | the random factor lies in [0.8, 1.2) |
| MockData.RandomPrice | scraper/mockDataScraper.js:80-112 | the price is a whole number of yen of at least 300000 |
| MockData.PriceFallsWithMileage | scraper/mockDataScraper.js:101-111 | with the same draw, more kilometres never give a higher price |
| MockData.WeightedIndex | scraper/mockDataScraper.js:159-171 | the index is the first whose cumulative weight reaches the draw times the total weight (or the last index) |
| MockData.WeightedRandom | scraper/mockDataScraper.js:159-171 | the item returned belongs to the list and is the one at the weighted index |
| MockData.WeightedRandomExample | scraper/mockDataScraper.js:114-118 | (example) with weights 0.1/0.4/0.4/0.1, a draw of 0.3 gives "Good" |
| MockData.MockUrlInjective | scraper/mockDataScraper.js:47 | distinct indices give distinct listing URLs |
| MockData.MockCar | scraper/mockDataScraper.js:28-50 | a generated car has a known make, a model of that make, a year in range, mileage below 200000, a whole price ≥ 300000 and a mock source, and its URL is `…/car/i+1` |
| MockData.GenerateMockCars | scraper/mockDataScraper.js:24-56 | exactly `count` cars, each plausible, with pairwise distinct URLs |
| ClassicScraper.Lookup | scraper/classicScraper.js:51-52 | a found entry belongs to the table and carries the key; no result means no entry has the key |
| ClassicScraper.TableAgeFactor | scraper/classicScraper.js:58 | the table depreciation factor never drops below 0.6 |
| ClassicScraper.GenericAgeFactor | scraper/classicScraper.js:74 | the generic depreciation factor never drops below 0.5 |
| ClassicScraper.GenericBase | scraper/classicScraper.js:71 | the random base lies in [15000, 25000) |
| ClassicScraper.Depreciated | scraper/classicScraper.js:56-67 | each of low/average/high is scaled by the factor and rounded, and the order low ≤ average ≤ high survives |
| ClassicScraper.GenericEstimate | scraper/classicScraper.js:70-84 | low, average and high are the rounded 80%, 100% and 120% of the depreciated base, ordered and at least 1 |
| ClassicScraper.SyntheticValue | scraper/classicScraper.js:50-85 | the value is tagged "mock data" exactly when the table has the key; it is otherwise the generic estimate; always ordered, in USD |
| ClassicScraper.MockTablesWellFormed | scraper/classicScraper.js:5-15 | every table entry has 1 ≤ low ≤ average ≤ high |
| ClassicScraper.MockResaleValueAsWritten | scraper/classicScraper.js:50-85 | the synthetic tier over the table as written: tagged "mock data" exactly when that table has the key |
| ClassicScraper.MazdaEntryUnreachableAsWritten | scraper/classicScraper.js:13 | the Mazda key has no space, so a Mazda Mazda3 misses it and gets a random "generated mock data" value |
| ClassicScraper.MockResaleValue | scraper/classicScraper.js:50-85 | (corrected) the synthetic tier over the corrected table: tagged "mock data" exactly when it has the key |
| ClassicScraper.EveryTableEntryReachable | scraper/classicScraper.js:5-15 | (corrected) every corrected entry is a make/model pair the generator produces and is valued from the table |
| ClassicScraper.MazdaEntryFound | scraper/classicScraper.js:13 | (corrected) with the corrected key, a current-year Mazda Mazda3 averages 15500 from its table entry |
| ClassicScraper.ProbeResult | scraper/classicScraper.js:102-106 | the `find` callback hits exactly when make and model are present and equal ignoring case and the year is equal; it throws exactly when the make is missing, or the make matches and the model is missing |
| ClassicScraper.FindExactMatch | scraper/classicScraper.js:102-106 | the search stops at the first result the callback does not miss: found there when it hits, thrown there when it throws; nothing found exactly when every result misses |
| ClassicScraper.GetValueFromApi | scraper/classicScraper.js:87-124 | a value exactly when the search over the response finds an exact match (no throw before it) and the match has a valuation; it carries that valuation tagged "classic.com API" |
| ClassicScraper.MissingMakeHidesLaterMatch | scraper/classicScraper.js:102-121 | a result without a make, before any exact match, makes the API tier give nothing, whatever comes after it |
| ClassicScraper.ParsePrice | scraper/classicScraper.js:179-187 | empty text is null; a parsed price is non-negative |
| ClassicScraper.ParsePriceRoundTrip | scraper/classicScraper.js:179-187 | "$" followed by the numeral of n parses back to n |
| ClassicScraper.ParsePriceIgnoresMarks | scraper/classicScraper.js:183 | inserting a '$' or ',' anywhere never changes the parsed price |
| ClassicScraper.ItemPrice | scraper/classicScraper.js:143-152 | a web item contributes only a positive price, and only when its trimmed make and model equal the searched ones ignoring case and its trimmed year text parses to the year |
| ClassicScraper.ItemPriceIgnoresPadding | scraper/classicScraper.js:143-145 | white space around the make, model and year cells never changes whether or what an item contributes |
| ClassicScraper.MatchingPrices | scraper/classicScraper.js:140-153 | every matching item's price is among the prices, every price is some matching item's, all positive, no more prices than items |
| ClassicScraper.MatchingPricesInPageOrder | scraper/classicScraper.js:140-153 | exactly one price per matching item, in page order: the k-th price is the price of the item at the k-th of a strictly increasing list of positions that contains every matching item's position, so the number of prices is the number of matching items |
| ClassicScraper.PresentPositions | scraper/classicScraper.js:140-153 | dropping the items without a value keeps one value per remaining item, in order, at strictly increasing positions that include every item with a value |
| ClassicScraper.MeanBetween | scraper/classicScraper.js:156-159 | the mean of the prices lies between the lowest and the highest |
| ClassicScraper.Aggregate | scraper/classicScraper.js:155-170 | no prices give no value; otherwise low = min, high = max, average = mean, sample size = count, ordered |
| ClassicScraper.GetValueFromWeb | scraper/classicScraper.js:126-177 | a value exactly when there is a page with a matching item; then it aggregates the matching prices, ordered with a positive average |
| ClassicScraper.GetResaleValue | scraper/classicScraper.js:24-48 | mock mode gives the synthetic value over the table as written; otherwise the API value, else the web value, else that synthetic value |
| ClassicScraper.CascadeProvenance | scraper/classicScraper.js:24-48 | the source tag names exactly the tier that answered, and only an API answer can lack a truthy average |
| ClassicScraper.BatchGetValues | scraper/classicScraper.js:189-216 | one enriched car per input, in order, each valued through the cascade; a per-car error falls back to the synthetic value over the table as written |
| JapanScraper.ParsePrice | scraper/japanScraper.js:150-163 | empty text is null; otherwise the digits and dots are parsed, times 10000 when the text contains 万 |
| JapanScraper.ParsePriceUnits | scraper/japanScraper.js:150-163 | "n万円" reads as n × 10000 yen and "n円" as n yen |
| JapanScraper.ParseMileage | scraper/japanScraper.js:165-170 | the digits read as an integer; a result of 0 or NaN becomes null, so a mileage is always positive |
| JapanScraper.ParseMileageIgnoresNonDigits | scraper/japanScraper.js:168 | inserting a non-digit anywhere never changes the mileage |
| JapanScraper.ParseMileageRoundTrip | scraper/japanScraper.js:165-170 | a positive numeral followed by "km" reads back as that number |
| JapanScraper.GooListing | scraper/japanScraper.js:86-96 | an accepted item becomes a "Goo-net" listing with a non-empty make and model, a positive price and a positive mileage if any |
| JapanScraper.GooCandidate | scraper/japanScraper.js:98-100 | an item yields a listing exactly when make, model and price are truthy |
| JapanScraper.ScrapeGooNetConcat | scraper/japanScraper.js:83-101 | the page filter works item by item: it distributes over concatenation |
| JapanScraper.ScrapeGooNetSingle | scraper/japanScraper.js:83-101 | one item yields its listing if accepted and nothing otherwise |
| JapanScraper.ScrapeUss | scraper/japanScraper.js:112-148 | no response gives no cars; otherwise one "USS Auction" listing per result, field for field |
| JapanScraper.Initialize | scraper/japanScraper.js:27-56 | mock mode stays on, and a failed browser launch turns it on |
| JapanScraper.ScrapeAll | scraper/japanScraper.js:172-215 | 30 synthetic cars in mock mode; 20 when the page fails; otherwise the Goo-net and USS cars, or 25 synthetic cars when both are empty |
| JapanScraper.ScrapeAllProvenance | scraper/japanScraper.js:172-215 | a scrape is never empty, and it is wholly synthetic exactly when mock mode is on, the page failed or no real car was found |
| JapanScraper.FailedLaunchIgnoresNetwork | scraper/japanScraper.js:51-55 | after a failed launch the scrape gives 30 cars and does not depend on anything the network returns |
| Pipeline.ToDocument | scraper/index.js:65-97 | the document carries the listing's natural key, price and required fields; the resale value is the valuation's average and its source the valuation's; margin, score, profit and total cost are the analysis's; duties = customs + VAT; it never sets isActive |
| Pipeline.DocumentFor | scraper/index.js:60-101 | a listing yields a document exactly when it has a valuation the engine can analyse |
| Pipeline.ProcessEnriched | scraper/index.js:58-102 | as many documents as analysable listings, each stamped with `now`, scored within 0..100 and without isActive or timestamps |
| Pipeline.ProcessedKeysComplete | scraper/index.js:58-102 | every analysable listing's key is among the documents' keys |
| Pipeline.ProcessedKeysSound | scraper/index.js:58-102 | every document's key is that of some analysable listing |
| Pipeline.SaveCarsToDatabase | scraper/index.js:123-147 | the store kind is kept; the file store keeps its records as a prefix and appends one record per document, with consecutive ids and the document's isActive; on the database every document's key is present afterwards, ids stay unique and existing records keep their ids and keys, with at most one new record per document |
| Pipeline.RunFullScrape | scraper/index.js:43-121 | the store afterwards is the given store with the run's documents saved; scraped > 0 and every scraped listing is valued; saved counts the documents and is at most the valued count; a file store grows by exactly the saved count |
| Pipeline.FallbackValuesAreAnalysable | scraper/index.js:60-64 | a synthetic valuation is always usable, so such a listing always gets a document |
| Pipeline.DatabaseRunStoresEveryKey | scraper/index.js:123-147 | after a database run every analysed listing's key is stored and ids stay unique; running again on the same documents adds no record |
| Pipeline.FileRunListsNothingAsWritten | scraper/index.js:123-126 | as written, a file run appends one record per analysed listing yet leaves the active listing unchanged, because the documents carry no isActive |
| Pipeline.RescrapeKeepsDeactivated | scraper/index.js:128-139 | re-saving a listing the cleanup deactivated leaves it inactive |
| Pipeline.RefreshCandidates | scraper/index.js:154-158 | at most 50 candidates, all stored, active and older than a day; all stale listings when there are at most 50 |
| Pipeline.RefreshOne | scraper/index.js:162-190 | one refresh keeps ids and natural keys; an error, or a listing the analysis cannot use, changes nothing; otherwise the record with the candidate's id gets the valuation's average (when present), the analysis's gross profit, margin and score, and the time stamps `now`, with every other field and every other record unchanged |
| Pipeline.UpdateWritesAnalysis | scraper/index.js:170-176 | `findByIdAndUpdate` with the refresh's fields writes exactly the analysis fields and the time stamps |
| Pipeline.RefreshFrameTransitive | scraper/index.js:162-190 | two refreshes of one listing at the same time touch no field beyond the refresh's six |
| Pipeline.RefreshAll | scraper/index.js:162-190 | the whole batch keeps ids and keys; a record changes only when a candidate has its id, and then only in the four analysis fields and the two time stamps (`now`); when every candidate errs nothing changes |
| Pipeline.UpdateExistingCars | scraper/index.js:149-197 | the refresh neither adds nor removes a record and keeps ids and keys; a record changes only when a stale listing has its id, and then only in the four analysis fields and the time stamps; when every outcome is an error nothing changes |
| Pipeline.RefreshTouchesOnlyStale | scraper/index.js:149-197 | the refresh keeps ids, keys and validity, changes only stale listings and in them only the four analysis fields and the time stamps, and a changed listing is no longer stale |
| CarSchema.OnInsert | backend/models/Car.js:13-44 | insertion fills the JPY/USD currencies, lastUpdated and isActive = true where absent, stamps createdAt/updatedAt, and leaves every other field as given |
| CarSchema.OnInsertIdempotent | backend/models/Car.js:13-44 | applying the defaults twice at one instant is applying them once; fields already set keep their values |
| CarSchema.SetFieldsAlgebra | scraper/index.js:137 | `$set` is idempotent, an empty document sets nothing, and on an empty record it gives the document |
| CarSchema.SetFieldsReadBack | scraper/index.js:137 | for each of the 29 fields, a field the document sets is read back and a field it leaves unset keeps its stored value |
| CarSchema.Where | backend/models/FileStorage.js:70-81 | the filtered records are exactly those of the input that pass the test |
| CarSchema.WhereKeepsOrder | backend/models/FileStorage.js:70-81 | the filtered records are the passing input records at strictly increasing positions, every passing position included: the input order is kept |
| CarSchema.CountIsWhereLength | backend/models/FileStorage.js:106-109 | counting is the length of the filtered read |
| CarSchema.WhereConcat | backend/models/FileStorage.js:42-47 | a filter distributes over appending records |
| CarSchema.WhereBoth | backend/models/FileStorage.js:113-114 | filtering twice is filtering once on both tests |
| CarSchema.WhereMonotone | backend/routes/admin.js:25-32 | a weaker test selects at least as many records |
| MongoStore.FindSorted | backend/routes/admin.js:57-63 | at most n matching records, sorted, and none left out outranks one returned |
| MongoStore.UpsertOne | scraper/index.js:128-139 | an existing key keeps the size and next id; a new key appends exactly one record with the schema defaults and the next id |
| MongoStore.UpsertUpdatesFirstMatch | scraper/index.js:128-139 | with the key present, the first record carrying it is replaced by itself with the document's fields set and updatedAt = now, keeping its id, and its createdAt and isActive unless the document sets them; nothing else changes |
| MongoStore.UpsertOneProperties | scraper/index.js:128-139 | an upsert keeps ids unique, makes the key present and leaves records with other keys untouched |
| MongoStore.UpsertOneIdempotent | scraper/index.js:128-139 | upserting the same document twice at one instant is upserting it once |
| MongoStore.UpsertAll | scraper/index.js:142-145 | an empty batch changes nothing; the collection grows by at most the batch size |
| MongoStore.UpsertAllProperties | scraper/index.js:142-145 | after a bulk write every document's key is present, ids stay unique, and earlier records keep their ids and keys |
| MongoStore.ResaveAddsNoRecords | scraper/index.js:142-145 | once every key is present, writing the batch again adds no record |
| MongoStore.Deactivate | scheduler/index.js:134-142 | matching records become inactive; the others are unchanged |
| MongoStore.DeleteWhere | scheduler/index.js:148-151 | a record remains exactly when it was there and does not match; the size drops by the number of matches; with no match nothing changes |
| MongoStore.DeleteKeepsOrder | scheduler/index.js:148-151 | the remaining records keep their relative order: they are the non-matching records at increasing positions, all of them included |
| MongoStore.UpdateById | scraper/index.js:174-180 | only the record with the id changes, and it gets the given fields |
| FileStorage.SaveCarsAsWritten | backend/models/FileStorage.js:31-58 | the documents are appended after the existing records, unchanged, with consecutive fresh ids; isActive stays whatever the document had |
| FileStorage.SavedListingsHiddenAsWritten | backend/models/FileStorage.js:42-47 | as written, saving documents without isActive changes neither the active listing nor the active count |
| FileStorage.SaveCars | backend/models/FileStorage.js:31-58 | (corrected) the documents are appended after the existing records with consecutive fresh ids; a document without isActive is stored active |
| FileStorage.SavedListingsListed | backend/models/FileStorage.js:42-47 | (corrected) every saved listing is listed as active after the existing ones, and the active count grows by the batch size |
| FileStorage.Persist | backend/models/FileStorage.js:50 | a non-finite margin comes back as null and every other field the model keeps is unchanged; the timestamps, which become ISO strings, are never compared in the file store (see Arrange) |
| FileStorage.SaveCarsValid | backend/models/FileStorage.js:42-47 | saving keeps record ids unique |
| FileStorage.ClearDataEmpties | backend/models/FileStorage.js:155-162 | after clearing, every read is empty |
| FileStorage.Slice | backend/models/FileStorage.js:95-97 | `Array.prototype.slice` with JavaScript's bound clamping; in range it is the subsequence |
| FileStorage.PagesTile | backend/models/FileStorage.js:94-97 | the first `count` pages, one after another, are the prefix of length count·limit (clamped to the list) |
| FileStorage.AllPages | backend/models/FileStorage.js:94-97 | ⌈n / limit⌉ pages show the whole list exactly once, in order |
| FileStorage.Arrange | backend/models/FileStorage.js:84-92 | sorting permutes the matches and orders them on `field || 0` in the requested direction; a sort on createdAt or lastUpdated compares ISO strings to NaN and keeps file order; without a sort, order is kept |
| Sorting.SortByAllMissing | backend/models/FileStorage.js:84-92 | when no record has a key, the stable sort returns the input unchanged |
| FileStorage.GetCars | backend/models/FileStorage.js:60-104 | every returned listing is stored and passes the filter; a positive limit bounds the count; without options all matches in file order; a date sort without limit or skip also gives file order; a sort otherwise permutes and orders the matches |
| FileStorage.GetCarsPage | backend/models/FileStorage.js:94-97 | skipping (p−1)·limit and taking limit returns page p of the arranged matches |
| FileStorage.CountCars | backend/models/FileStorage.js:106-109 | the count is the number of matching listings |
| FileStorage.GetStats | backend/models/FileStorage.js:111-149 | the total counts the active listings, the profitable and high-profit counts count the active listings with a positive profit and with a score of at least 70, the mean profit is MeanProfit of the active profitable listings and is > 0 ⇔ some is profitable; the top makes are the ten most frequent makes of the active listings, as Grouping.MostFrequent states |
| FileStorage.MeanProfit | backend/models/FileStorage.js:117-118 | 0 for no listings; otherwise the mean times the number of listings is the sum of their profits; positive exactly when there is a listing |
| Scheduler.ScheduleTexts | scheduler/index.js:19-87 | (example) the four cron expressions read "0 2 * * *", "0 */4 * * *", "0 * * * *", "0 3 * * 0" |
| Scheduler.FiringTimes | scheduler/index.js:17-103 | the full scrape fires at 02:00 every day; the refresh on every fourth hour; the rate update every hour; the cleanup at 03:00 on Sundays |
| Scheduler.WorkStatus | scheduler/index.js:19-103 | a tick reports an error exactly for a failed full scrape; the other jobs catch their own errors |
| Scheduler.LogAsWritten | scheduler/index.js:160-179 | as written, a second call throws on the model recompilation and logs nothing |
| Scheduler.AtMostOneLogAsWritten | scheduler/index.js:160-179 | as written, at most one log entry is ever added, however many ticks run |
| Scheduler.SecondLogLostAsWritten | scheduler/index.js:160-179 | as written, two successful ticks leave a single entry |
| Scheduler.Log | scheduler/index.js:160-179 | (corrected) the log appends exactly one entry when the insert succeeds and none otherwise |
| Scheduler.EveryTickLogged | scheduler/index.js:160-179 | (corrected) every tick adds its own entry in order, with the job's name, status and time |
| Scheduler.UpdateExchangeRates | scheduler/index.js:105-125 | a yen rate j sets USD→JPY to j and JPY→USD to 1/j; any failure leaves the calculator unchanged |
| Scheduler.UpdatedRatesRoundTrip | scheduler/index.js:115-118 | after an update, yen converted to dollars and back is unchanged |
| Scheduler.CleanupDatabase | scheduler/index.js:127-158 | no listing active and older than 30 days, nor inactive and older than 90 days, remains; an active listing between 30 and 90 days old remains with its id, deactivated and stamped with the run's time; an active listing older than 90 days is deactivated and deleted in the same run |
| Scheduler.CleanupKeepsRecent | scheduler/index.js:127-158 | a listing not stamped more than 30 days ago survives the cleanup; a surviving listing with an active flag was stamped at most 90 days ago |
| Scheduler.CleanupIdempotent | scheduler/index.js:127-158 | running the cleanup twice at one instant is running it once |
| Scheduler.StartJob | scheduler/index.js:37-38 | the job is registered under its name, running, with its expression and time zone |
| Scheduler.StartAll | scheduler/index.js:217-220 | the four named jobs are registered and running |
| Scheduler.StopJob | scheduler/index.js:181-188 | the named job is forgotten and every other job kept |
| Scheduler.StopAllJobs | scheduler/index.js:190-196 | the registry is empty |
| Scheduler.GetJobStatus | scheduler/index.js:198-207 | one entry per registered job, telling whether it is running |
| Scheduler.StopLaws | scheduler/index.js:181-188 | stops commute, are idempotent, and stopping an unknown job changes nothing |
| AdminRoutes.ProfitablePercentage | backend/routes/admin.js:85 | the percentage before `toFixed(1)` rounding lies in 0..100, is 0 exactly when nothing is profitable, is 100 exactly when everything is, and times the total gives 100 × profitable |
| AdminRoutes.GetOverview | backend/routes/admin.js:13-85 | the dashboard counts are counts over active listings: all, profitable, high-profit, created in the last 24 hours and in the last 7 days; profitable and high-profit ≤ total; last 24 h ≤ last 7 days ≤ total; the percentage is ProfitablePercentage of the profitable and total counts |
| AdminRoutes.GetProfitStats | backend/routes/admin.js:35-47 | all zeros exactly when no active listing is profitable; otherwise the total is the sum of their profits, the average is the total over their number, 0 < average ≤ maximum, some listing has the maximum profit, and the score average is AverageScore of those listings |
| AdminRoutes.StatsDescribeProfits | backend/routes/admin.js:35-47 | for a non-empty profitable group the statistics are not all zeros; the total is the sum of the profits, the average the total over the size, 0 < average ≤ maximum, and the maximum is attained |
| AdminRoutes.GroupStats | backend/routes/admin.js:38-44 | the total is the sum of the group's profits, the average is the total over the group size, and the score average is AverageScore of the group |
| AdminRoutes.AverageScore | backend/routes/admin.js:43 | no average exactly when no listing has a score; otherwise the average times the number of scores is the sum of the scores |
| AdminRoutes.GroupStatsBounds | backend/routes/admin.js:38-44 | 0 < average ≤ maximum, and some listing has the maximum profit |
| AdminRoutes.TopMakes | backend/routes/admin.js:49-54 | the ten most frequent makes of the active listings, as Grouping.MostFrequent states |
| AdminRoutes.TopProfitable | backend/routes/admin.js:57-63 | min(10, count) active profitable listings, best score first, none outranked by one left out |
| AdminRoutes.BucketOfAsWritten | backend/routes/admin.js:66-76 | a numbered bucket holds its lower bound and not its upper; "other" holds exactly missing scores and scores outside 0..99, so 100 falls past the last bucket |
| AdminRoutes.DistributionAsWritten | backend/routes/admin.js:66-76 | as written: the non-empty buckets, each counting the active listings its half-open range holds, summing to the number of active listings |
| AdminRoutes.OtherOnlyUnbucketedAsWritten | backend/routes/admin.js:66-76 | as written, "other" appears only when some active listing is unscored or scores exactly 100 |
| AdminRoutes.PerfectScoreUnbucketedAsWritten | backend/routes/admin.js:66-76 | as written, a score of 100 (which the calculator gives) is reported under "other" |
| AdminRoutes.BucketOf | backend/routes/admin.js:66-76 | (corrected) a numbered bucket holds scores from its lower bound to 20 above, and "other" holds exactly missing scores and scores outside 0..100 |
| AdminRoutes.Distribution | backend/routes/admin.js:66-76 | (corrected) the non-empty buckets with the closed top bucket, each with its count, which sum to the number of active listings |
| AdminRoutes.OtherOnlyUnscored | backend/routes/admin.js:66-76 | (corrected) "other" appears only when some active listing is unscored |
| AdminRoutes.SumAllBuckets | backend/routes/admin.js:66-76 | the six bucket ids partition any list of bucket ids: their occurrence counts sum to its length |
| AdminRoutes.HealthScore | backend/routes/admin.js:143 | the score is at most 100 and is 100 exactly with no issues; in exact arithmetic 10 × the score = 1000 − stale − 2·missing − 3·invalid (the program's doubles can land just below at a weighted sum of 200 or 400) |
| AdminRoutes.Clamp | backend/routes/admin.js:147 | the reported score lies in 0..100 and equals the raw score there |
| AdminRoutes.Recommendations | backend/routes/admin.js:157-161 | each advice appears exactly when its count passes its threshold (100, 50, 20), in a fixed order |
| AdminRoutes.DatabaseStatus | backend/routes/admin.js:135-141 | "connected" exactly for state 1; "unknown" exactly outside 0..3 |
| AdminRoutes.CheckHealth | backend/routes/admin.js:105-172 | the counts of stale, unvalued and unscored active listings; with w = stale + 2·missing + 3·invalid: healthy when w < 200 and not when w > 200, critical when w > 400 and not when w < 400 (exactly: healthy ⇔ w ≤ 200, critical ⇔ w > 400, which the program's doubles can miss at w = 200 or 400); score clamped to 0..100; connected ⇔ state 1 |
| AdminRoutes.ReportedScoreMatchesStatus | backend/routes/admin.js:143-147 | the clamped score tells the status: healthy from 80, warning from 60, critical below |
| AdminRoutes.StatusMonotone | backend/routes/admin.js:143-146 | more issues never improve the status |
| AdminRoutes.FirstBadCostField | backend/routes/admin.js:197-202 | the first checked cost field that is set but not a number, or none when all pass |
| AdminRoutes.ValidateConfig | backend/routes/admin.js:188-220 | accepted exactly when every checked cost field is absent or a number and a truthy JPY_TO_USD is a number |
| AdminRoutes.GetConfig | backend/routes/admin.js:175-185 | the rates shown are always the built-in 0.0067 and 149.25, whatever update has been applied |
| AdminRoutes.Cleanup | backend/routes/admin.js:223-267 | an unknown action is refused; "remove_stale" sets isActive false and updatedAt to now on exactly the active listings older than 30 days, keeping ids, their other fields and every other listing; "recalculate_profits" changes nothing; "remove_invalid" keeps exactly the listings with every required field, removing as many as lack one |
| CarRoutes.Direction | backend/routes/cars.js:19-32 | the order is descending exactly when none is given or it is "desc" |
| CarRoutes.TotalPages | backend/routes/cars.js:42 | a whole non-negative number of pages for a positive limit; Infinity or NaN for a zero limit |
| CarRoutes.TotalPagesBracket | backend/routes/cars.js:42 | (n−1)·limit < total ≤ n·limit: the fewest pages that hold every listing |
| CarRoutes.FileMatches | backend/routes/cars.js:26-35 | the listings the file filter selects, permuted into the requested order; a date sort keeps file order |
| CarRoutes.ListFromFile | backend/routes/cars.js:24-45 | the total counts the matches; every car shown is stored, active and matching; a page from 1 with a positive limit is that slice of the ordered matches |
| CarRoutes.FilePagesCoverAll | backend/routes/cars.js:37-42 | pages 1..totalPages show every match exactly once, in order |
| CarRoutes.FilePageIsSlice | backend/routes/cars.js:31-37 | whichever page is asked, it is the matching slice of one ordered list |
| CarRoutes.FileIgnoresRangeBounds | backend/routes/cars.js:26-29 | the file path ignores minYear, maxYear and maxPrice |
| CarRoutes.IntBound | backend/routes/cars.js:51-52 | an absent or empty bound is no bound; one that does not start with a digit is NaN |
| CarRoutes.ListFromDatabase | backend/routes/cars.js:47-69 | a server error exactly when a bound is NaN or the skip is negative; otherwise the total counts the matches, the cars are matching and sorted, and the page is the slice |
| CarRoutes.DatabasePagesCoverAll | backend/routes/cars.js:56-66 | pages 1..totalPages show every match exactly once, in order |
| CarRoutes.DatabasePageIsSlice | backend/routes/cars.js:56-60 | every page from 1 is the matching slice of one ordered list |
| CarRoutes.ProfitBoundDiffers | backend/routes/cars.js:29-53 | a listing whose profit equals minProfit is shown by the database path and hidden by the file path |
| CarRoutes.ListCars | backend/routes/cars.js:22-69 | only the database path can fail; a listing reports the page asked for, counts the matches of the selected store and shows only active listings of that store |
| CarRoutes.TopProfitableCars | backend/routes/cars.js:77-92 | min(limit, count) active listings with a positive score, best first, none outranked by one left out; a limit of 0 returns all |
| CarRoutes.GetCar | backend/routes/cars.js:95-105 | found exactly when some listing has the id; otherwise "Car not found" |
| CarRoutes.DatabaseSummary | backend/routes/cars.js:116-139 | counts of active and active profitable listings; the mean profit is FileStorage.MeanProfit of the active profitable listings and is > 0 ⇔ some is profitable; the top makes are the five most frequent makes of the active listings, as Grouping.MostFrequent states |
| CarRoutes.SummariesAgree | backend/routes/cars.js:110-139 | on the same listings the two stores report the same totals, profitable counts and mean profit |
| CarRoutes.StatsOverview | backend/routes/cars.js:108-144 | mock mode reports FileStorage.GetStats of the file store and otherwise DatabaseSummary of the database, so their contracts (counts, mean profit, top makes) hold of the endpoint |
| Grouping.Tally | backend/routes/admin.js:51 | the per-make counter counts each key exactly as often as it occurs |
| Grouping.Top | backend/routes/admin.js:52-53 | the n largest groups, in descending count, none larger left out |
| Grouping.MostFrequent | backend/routes/admin.js:49-54 | at most n distinct keys, each occurring in the input and counted exactly, in descending count; fewer than n only when every key is kept; a key left out occurs no more often than any kept one |
| Sorting.SortBy | backend/models/FileStorage.js:84-92 | the result is a permutation of the input, ordered on the key |
| Text.ParseNumeral | scraper/japanScraper.js:155 | the decimal numeral of n, followed by nothing or by a character that is neither a digit nor '.', reads back as n through both parseInt and parseFloat |
| Text.TrimIdempotent | scraper/classicScraper.js:143-145 | trimming twice is trimming once |

## Left out

- The Japanese-market scraper's browser and HTTP calls, the valuation services, the database driver and the file system are not modelled as I/O. What they return is a parameter (`GooOutcome`, `UssItem`s, `TierResponses`, `RateResponse`, the record sequences).
- Read or write errors of the file store are not modelled. `getCars` returning `[]` on a read error is one of these.
- Database errors other than a NaN bound and a negative skip are not modelled; these are the routes' 500 answers.
- `Date`, `Math.random()` and `new Date().getFullYear()` are parameters. The year the generated data is relative to is `currentYear`.
- The pipeline's `delay` and rate-limiting waits are left out, because they change no result.
- `CarArbitrageScraper.cleanup` and `JapanCarScraper.close` only close connections, so they are left out.
- The command-line entry points and `SchedulerService.initialize` are left out.
- The cron engine is reduced to matching fields against a wall-clock minute. Time-zone conversion is left out: the full scrape's Asia/Tokyo zone is recorded, not applied.
- `Scheduler.GetJobStatus`: reports `running` only. The task object's `scheduled` flag belongs to the cron library.
- `Text.ParseFloat` and `Text.ParseInt` read a leading `digits[.digits]` only. Signs, leading white space, exponents, `Infinity` and hexadecimal are not modelled.
- `Text.ToLower` folds ASCII letters only. Unicode case mapping is not modelled.
- `Text.Trim` removes space, tab, LF, CR, vertical tab, form feed, the no-break space, the ideographic space and the byte-order mark. The rest of JavaScript's white-space set (the other Unicode space separators and the line and paragraph separators) is left out.
- The database path treats the `make` and `model` patterns as literal case-insensitive substrings. Regular-expression metacharacters in a query are not interpreted.
- `CarRoutes.ListFromDatabase`: `page` and `limit` are whole numbers. A non-numeric `page` or `limit` string, which JavaScript turns into NaN, is not modelled.
- `CarRoutes.ListFromDatabase`: `currentPage` is reported as the parsed page number; the database branch returns the raw `page` query value, which is text when the request gives it (the file branch returns `parseInt(page)`).
- `CarRoutes.ListFromDatabase`: a negative limit counts as its magnitude, following the database's `limit(-n)`. The single-batch cursor semantics behind it are not modelled.
- `CarRoutes.TotalPages`: `Infinity` and `NaN`, which JSON writes as `null`, stay `Num` values.
- The `.select(...)` projection of the dashboard's top listings is left out, because it only trims fields.
- AdminRoutes.ProfitablePercentage: the `toFixed(1)` rounding to one decimal is left out, so the 0 and 100 equivalences hold of the unrounded value only; the returned text can read "0.0" with one profitable listing in 20000 or "100.0" with one unprofitable one.
- AdminRoutes.HealthScore: the model computes the score in exact arithmetic; the program subtracts `0.1·stale`, `0.2·missing` and `0.3·invalid` in doubles, so at a weighted sum of exactly 200 or 400 its score can fall just below 80 or 60 (stale 2, missing 42, invalid 38 gives 79.99999999999999).
- AdminRoutes.CheckHealth: its status equivalences are exact-arithmetic ones; at a weighted sum of exactly 200 or 400 the program can report warning instead of healthy or critical instead of warning (stale 0, missing 2, invalid 132), so only the strict inequalities on either side of 200 and 400 carry over to the program.
- The order of equal keys in database sorts and `$group` output is left out. The model keeps ties in their stored order.
- Sorting the file store on a text field (`sortBy=make`) is left out. The sort field is one of the numeric fields or a date; a date sort compares nothing, as `FileStorage.Arrange` states.
- FileStorage.Persist: `JSON.stringify` and `JSON.parse` are reduced to the one change that matters to a numeric read: a non-finite margin becomes `null`. The round trip also turns `createdAt`, `updatedAt` and `lastUpdated` into ISO strings; the model keeps them as numbers, and the file store never compares them (a date sort keeps file order, and no file-store filter reads a date).
- `Scheduler.UpdateExchangeRates`: a missing or zero yen figure leaves the rates alone. The source would set `Infinity`/`NaN` rates (a division by zero or by `undefined`).
- The refresh does not model listings that lack a required field: they get no analysis and are skipped.
- Identifiers are counters, not `Date.now().toString(36) + random` strings or ObjectIds. Only their uniqueness matters.
- `null` and an absent field are not distinguished. Both are `None`.
- Pipeline initialize: the choice between the file store and the database (`USE_MOCK_DATA`, or a failed connection) is not modelled as a function; the store the pipeline works on is the `Storage` parameter it is given.
- JapanScraper.GooListing: a year cell without digits gives year 0, where `parseInt('')` gives `NaN`. Such a listing passes the same make, model and price test in both.
- JapanScraper.ScrapeUss: `UssItem` has a make, model, year and price for every result, where the source copies whatever the response holds, `undefined` included. A result missing one of them is not modelled.
- Scheduler.RunTicks: the log through the corrected `Scheduler.Log`; `Scheduler.RunTicksAsWritten` is the code as written. Neither carries its own contract; `AtMostOneLogAsWritten` and `EveryTickLogged` state what they do.

## Findings

| source | as written | input that shows it | evidently intended | confidence | as-written member | corrected member |
|---|---|---|---|---|---|---|
| scraper/classicScraper.js:13 | the table key for the Mazda3 is `'Mazda3'`, but lookups build `${make} ${model}` with a space | make "Mazda", model "Mazda3" (the generator produces this pair): the lookup misses and a random generic value tagged "generated mock data" is returned | key `'Mazda Mazda3'`, so the car is valued from its entry (average 15500 for a current car) | high, not executed | ClassicScraper.MazdaEntryUnreachableAsWritten | ClassicScraper.MazdaEntryFound |
| backend/models/FileStorage.js:42-47 | `saveCars` appends documents without `isActive`, and the pipeline's documents never set it; every file-store read filters `isActive === true` | any run in mock mode: the listing, the count and the statistics stay as they were before the save | apply the schema default `isActive: true` on save, as the database does | high, not executed | FileStorage.SavedListingsHiddenAsWritten | FileStorage.SavedListingsListed |
| scheduler/index.js:160-179 | `logJobExecution` compiles `mongoose.model('JobLog', …)` on every call; the second call throws `OverwriteModelError` outside the `try` | two hourly exchange-rate ticks against a fresh log: one entry, and the second tick's log is lost | compile the model once and reuse it, so every tick is logged | medium, not executed | Scheduler.SecondLogLostAsWritten | Scheduler.EveryTickLogged |
| backend/routes/admin.js:66-76 | `$bucket` boundaries `[0, 20, 40, 60, 80, 100]` exclude the upper bound 100 | an active listing scoring 100 (margin 30, profit 5000, ROI 50, age 5, 50000 km) is reported under `'other'` | a closed top bucket (boundary 101), so every score from 0 to 100 is bucketed | high, not executed | AdminRoutes.PerfectScoreUnbucketedAsWritten | AdminRoutes.OtherOnlyUnscored |

The pipeline, the valuation cascade and the dashboard follow the code as written: runs save through `FileStorage.SaveCarsAsWritten`, the synthetic tier is `ClassicScraper.MockResaleValueAsWritten`, and the score distribution is `AdminRoutes.DistributionAsWritten`. The corrected members (`FileStorage.SaveCars`, `ClassicScraper.MockResaleValue`, `AdminRoutes.BucketOf`, `AdminRoutes.Distribution`, `Scheduler.Log`, `Scheduler.RunTicks`) stand beside them, and their rows in the table are marked "(corrected)".

### Consequences of the code worth knowing

Each of these follows from the code and is stated by the member named:

- **Job status.** The refresh, exchange-rate and cleanup jobs catch their own errors, so they always log `'success'` (`Scheduler.WorkStatus`). Only the full scrape can log `'error'`.
- **Refresh order.** The refresh takes the first 50 stale listings in stored order. No oldest-first sort is applied (`Pipeline.RefreshCandidates`).
- **Cleanup of old listings.** Deactivation stamps `updatedAt` and leaves `lastUpdated` alone, so an active listing older than 90 days is deactivated and deleted in the same cleanup run (`Scheduler.CleanupDatabase`).
- **Re-scraped listings.** Re-scraping a listing the cleanup deactivated does not reactivate it, because the saved document never sets `isActive` (`Pipeline.RescrapeKeepsDeactivated`).
- **The two list paths disagree.**
  - The file-store path filters `minProfit` strictly (`$gt`), while the database path uses `$gte` (`CarRoutes.ProfitBoundDiffers`).
  - The file-store path also ignores `minYear`, `maxYear` and `maxPrice` (`CarRoutes.FileIgnoresRangeBounds`).
