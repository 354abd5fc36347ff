/** The JSON-file store used when no database is available: the whole
    collection is one array that is read, filtered, sorted and sliced in
    memory, and appended to on every save. */
module FileStorage {
  import opened Common
  import opened Text
  import opened Sorting
  import opened Grouping
  import opened CarSchema

  /** The contents of the cars file and the next identifier to hand out. */
  datatype Store = Store(records: seq<Record>, nextId: nat)

  /** A freshly initialised store: an empty array. */
  const EmptyStore: Store := Store([], 0)

  /** Identifiers are unique and below `nextId`. */
  ghost predicate Valid(s: Store) {
    && (forall i :: 0 <= i < |s.records| ==> s.records[i].id < s.nextId)
    && (forall i, j :: 0 <= i < j < |s.records| ==> s.records[i].id != s.records[j].id)
  }

  // ---------------------------------------------------------------------
  // Saving.

  /** What writing a listing as JSON and reading it back keeps: a
      non-finite margin is written as `null`. */
  function Persist(c: Car): (r: Car)
    ensures r.profitMargin.Some? ==> r.profitMargin.value.Finite?
    ensures c.profitMargin.Some? && c.profitMargin.value.Finite? ==> r == c
    ensures r.(profitMargin := c.profitMargin) == c
  {
    if c.profitMargin.Some? && !c.profitMargin.value.Finite? then c.(profitMargin := None) else c
  }

  /** One appended listing: the document's own fields, an identifier and
      both timestamps. */
  function Stamped(c: Car, id: nat, now: int): Record {
    Record(id, Persist(c).(createdAt := Some(now), updatedAt := Some(now)))
  }

  /** `saveCars` as written: appends every document with a fresh identifier
      and timestamps, and nothing else; a document without `isActive`
      is stored without it. */
  function SaveCarsAsWritten(s: Store, cars: seq<Car>, now: int): (r: Store)
    ensures |r.records| == |s.records| + |cars| && r.records[..|s.records|] == s.records
    ensures r.nextId == s.nextId + |cars|
    ensures forall k :: 0 <= k < |cars| ==>
      r.records[|s.records| + k].id == s.nextId + k && r.records[|s.records| + k].car.isActive == cars[k].isActive
  {
    Store(s.records + seq(|cars|, k requires 0 <= k < |cars| => Stamped(cars[k], s.nextId + k, now)),
          s.nextId + |cars|)
  }

  /** `saveCars` with the schema's `isActive` default applied, so that a
      saved listing is active unless the document says otherwise. */
  function SaveCars(s: Store, cars: seq<Car>, now: int): (r: Store)
    ensures |r.records| == |s.records| + |cars| && r.records[..|s.records|] == s.records
    ensures r.nextId == s.nextId + |cars|
    ensures forall k :: 0 <= k < |cars| ==>
      && r.records[|s.records| + k].id == s.nextId + k
      && (cars[k].isActive.None? ==> IsActive(r.records[|s.records| + k].car))
      && (cars[k].isActive.Some? ==> r.records[|s.records| + k].car.isActive == cars[k].isActive)
  {
    Store(s.records + seq(|cars|, k requires 0 <= k < |cars| =>
            Stamped(cars[k].(isActive := OrDefault(cars[k].isActive, true)), s.nextId + k, now)),
          s.nextId + |cars|)
  }

  /** Appending records numbered on from `nextId` keeps identifiers unique. */
  lemma AppendFresh(s: Store, added: seq<Record>)
    requires Valid(s)
    requires forall k :: 0 <= k < |added| ==> added[k].id == s.nextId + k
    ensures Valid(Store(s.records + added, s.nextId + |added|))
  {
    var rs := s.records + added;
    var n := |s.records|;
    assert forall i :: 0 <= i < n ==> rs[i] == s.records[i];
    assert forall i :: n <= i < |rs| ==> rs[i] == added[i - n];
  }

  /** Saving keeps identifiers unique. */
  lemma SaveCarsValid(s: Store, cars: seq<Car>, now: int)
    requires Valid(s)
    ensures Valid(SaveCars(s, cars, now))
    ensures Valid(SaveCarsAsWritten(s, cars, now))
  {
    var r := SaveCars(s, cars, now);
    assert r.records == s.records + r.records[|s.records|..];
    AppendFresh(s, r.records[|s.records|..]);
    var w := SaveCarsAsWritten(s, cars, now);
    assert w.records == s.records + w.records[|s.records|..];
    AppendFresh(s, w.records[|s.records|..]);
  }

  /** `clearData`: the file holds an empty array again. */
  function ClearData(s: Store): (r: Store)
    ensures |r.records| == 0 && r.nextId == s.nextId
  {
    Store([], s.nextId)
  }

  // ---------------------------------------------------------------------
  // Reading.

  /** The filter object `getCars` understands. `profitAbove` is
      `estimatedProfit.$gt`. */
  datatype Filter = Filter(isActive: Option<bool>, make: Option<string>, model: Option<string>,
                           profitAbove: Option<Num>)

  const NoFilter: Filter := Filter(None, None, None, None)
  const ActiveOnly: Filter := Filter(Some(true), None, None, None)

  /** JavaScript `x > n` for a finite `x`. */
  predicate GreaterThan(x: real, n: Num) {
    match n
    case Finite(v) => x > v
    case NegInf => true
    case PosInf => false
    case NaN => false
  }

  /** A listing passes every filter that is set: `isActive` by strict
      equality, make and model as case-insensitive substrings of a
      non-empty field, and a present profit strictly above the bound. */
  predicate Matches(f: Filter, c: Car) {
    && (f.isActive.Some? ==> c.isActive == f.isActive)
    && (TruthyString(f.make) ==> TruthyString(c.make) && IncludesIgnoreCase(c.make.value, f.make.value))
    && (TruthyString(f.model) ==> TruthyString(c.model) && IncludesIgnoreCase(c.model.value, f.model.value))
    && (f.profitAbove.Some? ==> c.estimatedProfit.Some? && GreaterThan(c.estimatedProfit.value, f.profitAbove.value))
  }

  function Matcher(f: Filter): Car -> bool {
    c => Matches(f, c)
  }

  /** The numeric fields a listing can be sorted on. */
  datatype SortField =
    | ProfitabilityScore | EstimatedProfit | ProfitMargin | JapanPrice | Year | Mileage
    | AfricaResaleValue | EstimatedTotalCost | LastUpdated | CreatedAt

  function RealOr0(o: Option<real>): real { if o.Some? then o.value else 0.0 }
  function IntOr0(o: Option<int>): real { if o.Some? then o.value as real else 0.0 }

  /** `car[field] || 0`: an absent field (or a `null` one) sorts as 0. */
  function FieldValue(field: SortField, c: Car): real {
    match field
    case ProfitabilityScore => IntOr0(c.profitabilityScore)
    case EstimatedProfit => RealOr0(c.estimatedProfit)
    case ProfitMargin => if c.profitMargin.Some? && c.profitMargin.value.Finite? then c.profitMargin.value.value else 0.0
    case JapanPrice => RealOr0(c.japanPrice)
    case Year => IntOr0(c.year)
    case Mileage => IntOr0(c.mileage)
    case AfricaResaleValue => RealOr0(c.africaResaleValue)
    case EstimatedTotalCost => RealOr0(c.estimatedTotalCost)
    case LastUpdated => IntOr0(c.lastUpdated)
    case CreatedAt => IntOr0(c.createdAt)
  }

  /** The two timestamp fields. */
  predicate IsDateField(field: SortField) {
    field.LastUpdated? || field.CreatedAt?
  }

  /** The key the file store's comparator `bVal - aVal` effectively sorts
      on. A timestamp reads back from the JSON file as an ISO string, and
      subtracting strings gives `NaN`, which the sort treats as "equal":
      a timestamp sort compares nothing, so every record gets the same
      key. */
  function FieldKey(field: SortField): (key: Record -> SortKey)
    ensures IsDateField(field) ==> forall r :: key(r).Missing?
    ensures !IsDateField(field) ==> forall r :: key(r) == Value(FieldValue(field, r.car))
  {
    (r: Record) => if IsDateField(field) then Missing else Value(FieldValue(field, r.car))
  }

  /** A sort field and direction (`1` ascending; anything else descending). */
  datatype SortSpec = SortSpec(field: SortField, order: int)

  /** The options object: `limit` and `skip` are `None` when absent or
      `NaN`. */
  datatype Options = Options(sort: Option<SortSpec>, limit: Option<int>, skip: Option<int>)

  const NoOptions: Options := Options(None, None, None)

  /** Where `Array.prototype.slice` puts a bound: a negative one counts
      from the end, and every bound is clamped to the array. */
  function SliceBound(i: int, n: nat): (k: nat)
    ensures k <= n
    ensures 0 <= i ==> k == Min(i as real, n as real) as int
  {
    if i < 0 then (if n + i < 0 then 0 else n + i) else if i > n then n else i
  }

  /** `s.slice(start, end)`. */
  function Slice<T>(s: seq<T>, start: int, end: int): (r: seq<T>)
    ensures |r| <= |s|
    ensures 0 <= start <= end ==> |r| <= end - start
    ensures 0 <= start <= |s| && start <= end ==> r == s[start..SliceBound(end, |s|)]
    ensures forall i :: 0 <= i < |r| ==> r[i] in s
  {
    var a := SliceBound(start, |s|);
    var b := SliceBound(end, |s|);
    if a <= b then
      assert forall i :: 0 <= i < b - a ==> s[a..b][i] == s[a + i];
      s[a..b]
    else []
  }

  /** Page `p` (counting from 1) of `limit` items. */
  function Page<T>(s: seq<T>, p: nat, limit: nat): seq<T>
    requires p >= 1
  {
    Slice(s, (p - 1) * limit, (p - 1) * limit + limit)
  }

  /** Pages 1 to `count`, one after another. */
  function Pages<T>(s: seq<T>, count: nat, limit: nat): seq<T> {
    if count == 0 then [] else Pages(s, count - 1, limit) + Page(s, count, limit)
  }

  /** Consecutive pages tile the array: the first `count` pages together
      are its first `count * limit` items. */
  lemma {:induction false} PagesTile<T>(s: seq<T>, count: nat, limit: nat)
    requires limit > 0
    ensures Pages(s, count, limit) == s[..SliceBound(count * limit, |s|)]
  {
    if count > 0 {
      PagesTile(s, count - 1, limit);
      var a := SliceBound((count - 1) * limit, |s|);
      var b := SliceBound(count * limit, |s|);
      assert (count - 1) * limit + limit == count * limit;
      assert (count - 1) * limit <= count * limit;
      if (count - 1) * limit <= |s| {
        assert Page(s, count, limit) == s[a..b];
        assert s[..a] + s[a..b] == s[..b];
      } else {
        assert a == |s| && b == |s|;
        assert Page(s, count, limit) == [];
      }
    }
  }

  /** Enough pages to hold every item (`Math.ceil(total / limit)` of them)
      show every item once, in order. */
  lemma AllPages<T>(s: seq<T>, limit: nat)
    requires limit > 0
    ensures Pages(s, Ceil(|s| as real / limit as real), limit) == s
  {
    var count := Ceil(|s| as real / limit as real);
    assert count >= 0;
    assert count * limit >= |s| by {
      assert |s| as real / limit as real <= count as real;
      MulLe(|s| as real / limit as real, count as real, limit as real);
    }
    PagesTile(s, count, limit);
  }

  /** The matching listings in the order asked for: unchanged without a
      sort, otherwise stably sorted on `field || 0`. */
  function Arrange(rs: seq<Record>, sort: Option<SortSpec>): (r: seq<Record>)
    ensures multiset(r) == multiset(rs)
    ensures forall i :: 0 <= i < |r| ==> r[i] in rs
    ensures sort.None? ==> r == rs
    ensures sort.Some? ==> SortedBy(r, FieldKey(sort.value.field), sort.value.order == 1)
    ensures sort.Some? && IsDateField(sort.value.field) ==> r == rs
  {
    if sort.None? then rs
    else
      var key := FieldKey(sort.value.field);
      var r := SortBy(rs, key, sort.value.order == 1);
      assert forall i :: 0 <= i < |r| ==> r[i] in multiset(rs);
      if IsDateField(sort.value.field) then
        SortByAllMissing(rs, key, sort.value.order == 1);
        r
      else r
  }

  /** `getCars(filter, options)`: the matching listings in file order,
      sorted when asked, then `skip` dropped and at most `limit` kept (no
      limit when it is absent or 0). */
  function GetCars(s: Store, f: Filter, o: Options): (r: seq<Record>)
    ensures forall i :: 0 <= i < |r| ==> r[i] in s.records && Matches(f, r[i].car)
    ensures o.limit.Some? && o.limit.value > 0 && (o.skip.None? || o.skip.value >= 0) ==> |r| <= o.limit.value
    ensures o.sort.None? && o.limit.None? && o.skip.None? ==> r == Where(s.records, Matcher(f))
    ensures o.sort.Some? && o.limit.None? && o.skip.None? ==>
      && multiset(r) == multiset(Where(s.records, Matcher(f)))
      && SortedBy(r, FieldKey(o.sort.value.field), o.sort.value.order == 1)
    ensures o.sort.Some? && IsDateField(o.sort.value.field) && o.limit.None? && o.skip.None? ==>
      r == Where(s.records, Matcher(f))
  {
    var sorted := Arrange(Where(s.records, Matcher(f)), o.sort);
    var limit := if o.limit.Some? && o.limit.value != 0 then o.limit.value else |sorted|;
    var skip := if o.skip.Some? then o.skip.value else 0;
    var r := Slice(sorted, skip, skip + limit);
    assert o.limit.None? && o.skip.None? ==> r == sorted[0..|sorted|] == sorted;
    r
  }

  /** Asking for page `p` of `limit` listings (skipping the `(p - 1) *
      limit` listings of earlier pages) reads that page of the arranged
      matches. */
  lemma GetCarsPage(s: Store, f: Filter, sort: Option<SortSpec>, limit: int, p: int)
    requires limit > 0 && p >= 1
    ensures GetCars(s, f, Options(sort, Some(limit), Some((p - 1) * limit)))
         == Page(Arrange(Where(s.records, Matcher(f)), sort), p, limit)
  {
  }

  /** `countCars(filter)`: the number of matching listings. */
  function CountCars(s: Store, f: Filter): (n: nat)
    ensures n == Count(s.records, Matcher(f))
  {
    CountIsWhereLength(s.records, Matcher(f));
    |GetCars(s, f, NoOptions)|
  }

  /** Emptying the file empties every read. */
  lemma ClearDataEmpties(s: Store, f: Filter, o: Options)
    ensures GetCars(ClearData(s), f, o) == []
  {
  }

  // ---------------------------------------------------------------------
  // Statistics.

  predicate Profitable(c: Car) {
    c.estimatedProfit.Some? && c.estimatedProfit.value > 0.0
  }

  predicate HighProfit(c: Car) {
    c.profitabilityScore.Some? && c.profitabilityScore.value >= 70
  }

  /** `sum + (car.estimatedProfit || 0)` over the records. */
  function SumProfit(rs: seq<Record>): real {
    if |rs| == 0 then 0.0 else RealOr0(rs[0].car.estimatedProfit) + SumProfit(rs[1..])
  }

  /** A sum of profits that are all positive is positive. */
  lemma {:induction false} SumProfitPositive(rs: seq<Record>)
    requires forall i :: 0 <= i < |rs| ==> Profitable(rs[i].car)
    ensures |rs| > 0 ==> SumProfit(rs) > 0.0
  {
    if |rs| > 0 {
      SumProfitPositive(rs[1..]);
    }
  }

  /** The non-empty makes, in order. */
  function MakesOf(rs: seq<Record>): (ms: seq<string>)
    ensures |ms| <= |rs|
    ensures forall i :: 0 <= i < |ms| ==> |ms[i]| > 0
  {
    if |rs| == 0 then []
    else (if TruthyString(rs[0].car.make) then [rs[0].car.make.value] else []) + MakesOf(rs[1..])
  }

  datatype Stats = Stats(totalCars: nat, profitableCars: nat, highProfitCars: nat, avgProfit: real,
                         topMakes: seq<Group<string>>)

  /** `getStats`: counts over the active listings, the mean profit of the
      profitable ones (0 when there are none), and the ten most frequent
      makes. */
  function GetStats(s: Store): (r: Stats)
    ensures r.totalCars == Count(s.records, IsActive)
    ensures r.profitableCars <= r.totalCars && r.highProfitCars <= r.totalCars
    ensures r.profitableCars == Count(Where(s.records, IsActive), Profitable)
    ensures r.highProfitCars == Count(Where(s.records, IsActive), HighProfit)
    ensures r.avgProfit == MeanProfit(Where(Where(s.records, IsActive), Profitable))
    ensures r.avgProfit > 0.0 <==> r.profitableCars > 0
    ensures MostFrequentOf(MakesOf(Where(s.records, IsActive)), 10, r.topMakes)
  {
    var cars := GetCars(s, ActiveOnly, NoOptions);
    WhereSame(s.records, Matcher(ActiveOnly), IsActive);
    assert cars == Where(s.records, IsActive);
    CountIsWhereLength(s.records, IsActive);
    var profitable := Where(cars, Profitable);
    var high := Where(cars, HighProfit);
    CountIsWhereLength(cars, Profitable);
    CountIsWhereLength(cars, HighProfit);
    var avg := MeanProfit(profitable);
    Stats(|cars|, |profitable|, |high|, avg, MostFrequent(MakesOf(cars), 10))
  }

  /** `totalProfit / profitableCars.length`, or 0 for no listings. */
  function MeanProfit(rs: seq<Record>): (m: real)
    requires forall i :: 0 <= i < |rs| ==> Profitable(rs[i].car)
    ensures m > 0.0 <==> |rs| > 0
    ensures |rs| > 0 ==> m * |rs| as real == SumProfit(rs)
    ensures |rs| == 0 ==> m == 0.0
  {
    SumProfitPositive(rs);
    if |rs| > 0 then
      var total := SumProfit(rs);
      var q := Mean(total, |rs|);
      assert q > 0.0 by {
        if q <= 0.0 {
          MulLe(q, 0.0, |rs| as real);
        }
      }
      q
    else 0.0
  }

  // ---------------------------------------------------------------------
  // What a save makes visible.

  /** As written, saving documents that do not set `isActive` changes no
      read of active listings: nothing the pipeline saves is ever listed. */
  lemma SavedListingsHiddenAsWritten(s: Store, cars: seq<Car>, now: int)
    requires forall k :: 0 <= k < |cars| ==> cars[k].isActive.None?
    ensures GetCars(SaveCarsAsWritten(s, cars, now), ActiveOnly, NoOptions) == GetCars(s, ActiveOnly, NoOptions)
    ensures GetStats(SaveCarsAsWritten(s, cars, now)).totalCars == GetStats(s).totalCars
  {
    var r := SaveCarsAsWritten(s, cars, now);
    var added := r.records[|s.records|..];
    assert r.records == s.records + added;
    WhereConcat(s.records, added, IsActive);
    NoneMatch(added, IsActive);
    WhereSame(s.records, Matcher(ActiveOnly), IsActive);
    WhereSame(r.records, Matcher(ActiveOnly), IsActive);
    CountIsWhereLength(r.records, IsActive);
    CountIsWhereLength(s.records, IsActive);
  }

  /** With the default applied, every listing saved is listed, after the
      ones that were already there, and the active count grows by the
      number saved. */
  lemma SavedListingsListed(s: Store, cars: seq<Car>, now: int)
    requires forall k :: 0 <= k < |cars| ==> cars[k].isActive.None?
    ensures var r := SaveCars(s, cars, now);
      GetCars(r, ActiveOnly, NoOptions) == GetCars(s, ActiveOnly, NoOptions) + r.records[|s.records|..]
    ensures GetStats(SaveCars(s, cars, now)).totalCars == GetStats(s).totalCars + |cars|
  {
    var r := SaveCars(s, cars, now);
    var added := r.records[|s.records|..];
    assert r.records == s.records + added;
    WhereConcat(s.records, added, IsActive);
    AllMatch(added, IsActive);
    WhereSame(s.records, Matcher(ActiveOnly), IsActive);
    WhereSame(r.records, Matcher(ActiveOnly), IsActive);
    CountIsWhereLength(r.records, IsActive);
    CountIsWhereLength(s.records, IsActive);
  }
}
