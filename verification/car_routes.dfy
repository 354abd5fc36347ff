/** The public listing endpoints: the filtered, sorted and paginated list
    (read from the file store in mock mode, from the database otherwise),
    the best-scored listings, one listing by identifier, and the summary
    statistics. */
module CarRoutes {
  import opened Common
  import opened Text
  import opened Sorting
  import opened Grouping
  import opened CarSchema
  import MongoStore
  import FileStorage
  import AdminRoutes

  // ---------------------------------------------------------------------
  // The query.

  /** The query string of the list endpoint. `page` and `limit` are the
      whole numbers the query gives; every other value is text. */
  datatype CarQuery = CarQuery(
    page: Option<int>,
    limit: Option<int>,
    make: Option<string>,
    model: Option<string>,
    minYear: Option<string>,
    maxYear: Option<string>,
    minProfit: Option<string>,
    maxPrice: Option<string>,
    sortBy: Option<FileStorage.SortField>,
    sortOrder: Option<string>)

  /** A query that sets nothing: every default applies. */
  const DefaultQuery: CarQuery := CarQuery(None, None, None, None, None, None, None, None, None, None)

  /** The defaults: page 1, 20 listings, best score first. */
  function PageOf(q: CarQuery): int { q.page.GetOr(1) }
  function LimitOf(q: CarQuery): int { q.limit.GetOr(20) }
  function SortFieldOf(q: CarQuery): FileStorage.SortField { q.sortBy.GetOr(FileStorage.ProfitabilityScore) }

  /** `sortOrder === 'desc' ? -1 : 1`: only the exact word `desc` (or no
      order at all) sorts downwards. */
  function Direction(q: CarQuery): (d: int)
    ensures d == -1 || d == 1
    ensures d == -1 <==> q.sortOrder.None? || q.sortOrder.value == "desc"
  {
    if q.sortOrder.GetOr("desc") == "desc" then -1 else 1
  }

  /** `parseFloat` of a query value as a JavaScript number. */
  function FloatParam(s: string): (n: Num)
    ensures n.Finite? || n.NaN?
    ensures |s| == 0 ==> n.NaN?
    ensures n.Finite? ==> n.value >= 0.0
  {
    var v := ParseFloat(s);
    if v.Some? then Finite(v.value) else NaN
  }

  /** One page of the list endpoint, or the 500 answer. */
  datatype Listing = Listing(cars: seq<Record>, totalPages: Num, currentPage: int, total: nat) | ServerError

  /** `Math.ceil(total / limit)`: for a positive page size, the fewest
      pages that hold every listing; Infinity or NaN for a page size of 0. */
  function TotalPages(total: nat, limit: int): (n: Num)
    ensures limit > 0 ==> n.Finite? && n.value == n.value.Floor as real && n.value >= 0.0
    ensures limit == 0 ==> (n.PosInf? <==> total > 0) && (n.NaN? <==> total == 0)
    ensures limit < 0 ==> n.Finite? && n.value <= 0.0
  {
    match Quotient(total as real, limit as real)
    case Finite(v) =>
      if limit > 0 then Finite(Ceil(v) as real)
      else CeilNegative(total, limit, v); Finite(Ceil(v) as real)
    case PosInf => PosInf
    case NegInf => NegInf
    case NaN => NaN
  }

  /** For a positive page size, `totalPages` pages hold every listing
      and one page fewer would not. */
  lemma TotalPagesBracket(total: nat, limit: int)
    requires limit > 0
    ensures var n := TotalPages(total, limit).value;
      (n - 1.0) * limit as real < total as real <= n * limit as real
  {
    var v := total as real / limit as real;
    assert TotalPages(total, limit) == Finite(Ceil(v) as real);
    CeilBracket(total, limit, v, Ceil(v));
  }

  /** The bracket `Math.ceil` puts around a positive quotient, multiplied
      back. */
  lemma CeilBracket(total: nat, limit: int, v: real, k: int)
    requires limit > 0 && v * limit as real == total as real && k == Ceil(v)
    ensures (k - 1) as real * limit as real < total as real <= k as real * limit as real
  {
    MulLe(v, k as real, limit as real);
    MulStrict((k - 1) as real, v, limit as real);
  }

  /** A quotient by a negative number rounds up to at most 0. */
  lemma CeilNegative(total: nat, limit: int, v: real)
    requires limit < 0 && v * limit as real == total as real
    ensures Ceil(v) <= 0
  {
    if v > 0.0 {
      MulStrict(limit as real, 0.0, v);
    }
  }

  // ---------------------------------------------------------------------
  // The list endpoint on the file store.

  /** The filter passed to the file store: active listings, the make and
      model when given, and a profit strictly above `minProfit`. The year
      and price bounds are not passed on. */
  function FileFilter(q: CarQuery): FileStorage.Filter {
    FileStorage.Filter(
      Some(true),
      if TruthyString(q.make) then q.make else None,
      if TruthyString(q.model) then q.model else None,
      if TruthyString(q.minProfit) then Some(FloatParam(q.minProfit.value)) else None)
  }

  /** The options passed to the file store: the sort, the page size and
      the number of listings on earlier pages. */
  function FileOptions(q: CarQuery): FileStorage.Options {
    FileStorage.Options(
      Some(FileStorage.SortSpec(SortFieldOf(q), Direction(q))),
      Some(LimitOf(q)),
      Some((PageOf(q) - 1) * LimitOf(q)))
  }

  /** Every listing the file-store filter selects, in the requested order. */
  function FileMatches(s: FileStorage.Store, q: CarQuery): (all: seq<Record>)
    ensures multiset(all) == multiset(Where(s.records, FileStorage.Matcher(FileFilter(q))))
    ensures |all| == Count(s.records, FileStorage.Matcher(FileFilter(q)))
    ensures SortedBy(all, FileStorage.FieldKey(SortFieldOf(q)), Direction(q) == 1)
    ensures FileStorage.IsDateField(SortFieldOf(q)) ==> all == Where(s.records, FileStorage.Matcher(FileFilter(q)))
  {
    var w := Where(s.records, FileStorage.Matcher(FileFilter(q)));
    var all := FileStorage.Arrange(w, FileOptions(q).sort);
    CountIsWhereLength(s.records, FileStorage.Matcher(FileFilter(q)));
    assert |all| == |multiset(all)| == |multiset(w)| == |w|;
    all
  }

  /** The list endpoint in mock mode. For a positive page size and a page
      from 1 on, the listings are that page of all matching listings in
      the requested order. */
  function ListFromFile(s: FileStorage.Store, q: CarQuery): (l: Listing)
    ensures l.Listing? && l.currentPage == PageOf(q)
    ensures l.total == Count(s.records, FileStorage.Matcher(FileFilter(q)))
    ensures forall i :: 0 <= i < |l.cars| ==>
      l.cars[i] in s.records && IsActive(l.cars[i].car) && FileStorage.Matches(FileFilter(q), l.cars[i].car)
    ensures LimitOf(q) > 0 && PageOf(q) >= 1 ==> l.cars == FileStorage.Page(FileMatches(s, q), PageOf(q), LimitOf(q))
    ensures LimitOf(q) > 0 && PageOf(q) >= 1 ==> |l.cars| <= LimitOf(q)
  {
    var f := FileFilter(q);
    var total := FileStorage.CountCars(s, f);
    var cars := FileStorage.GetCars(s, f, FileOptions(q));
    FilePage(s, q, cars);
    Listing(cars, TotalPages(total, LimitOf(q)), PageOf(q), total)
  }

  /** A page from 1 on of a positive size is the slice of the ordered
      matches that the skip and the limit select. */
  lemma FilePage(s: FileStorage.Store, q: CarQuery, cars: seq<Record>)
    requires cars == FileStorage.GetCars(s, FileFilter(q), FileOptions(q))
    ensures LimitOf(q) > 0 && PageOf(q) >= 1 ==>
      cars == FileStorage.Page(FileMatches(s, q), PageOf(q), LimitOf(q)) && |cars| <= LimitOf(q)
  {
    if LimitOf(q) <= 0 || PageOf(q) < 1 {
      return;
    }
    var f := FileFilter(q);
    var sort := FileOptions(q).sort;
    NonNegativeSkip(PageOf(q), LimitOf(q));
    assert FileOptions(q) == FileStorage.Options(sort, Some(LimitOf(q)), Some((PageOf(q) - 1) * LimitOf(q)));
    FileStorage.GetCarsPage(s, f, sort, LimitOf(q), PageOf(q));
    assert FileMatches(s, q) == FileStorage.Arrange(Where(s.records, FileStorage.Matcher(f)), sort);
  }

  /** With a positive page size, pages 1 to `Math.ceil(total / limit)`
      of an ordered list of `total` listings, one after another, show
      every listing exactly once, in order. */
  lemma PagesCoverAll(all: seq<Record>, total: nat, limit: int)
    requires limit > 0 && |all| == total
    ensures TotalPages(total, limit).Finite?
    ensures FileStorage.Pages(all, TotalPages(total, limit).value.Floor, limit) == all
  {
    assert TotalPages(total, limit) == Finite(Ceil(total as real / limit as real) as real);
    FileStorage.AllPages(all, limit);
  }

  /** Pages 1 to `totalPages` of the mock-mode list show every matching
      listing exactly once, in the requested order. */
  lemma FilePagesCoverAll(s: FileStorage.Store, q: CarQuery, l: Listing)
    requires LimitOf(q) > 0 && l == ListFromFile(s, q)
    ensures l.totalPages.Finite?
    ensures FileStorage.Pages(FileMatches(s, q), l.totalPages.value.Floor, LimitOf(q)) == FileMatches(s, q)
  {
    PagesCoverAll(FileMatches(s, q), l.total, LimitOf(q));
  }

  /** Every page of the mock-mode list is the matching slice of the whole
      ordered list, whichever page is asked for. */
  lemma FilePageIsSlice(s: FileStorage.Store, q: CarQuery, p: int)
    requires LimitOf(q) > 0 && p >= 1
    ensures ListFromFile(s, q.(page := Some(p))).cars == FileStorage.Page(FileMatches(s, q), p, LimitOf(q))
  {
    assert FileFilter(q.(page := Some(p))) == FileFilter(q);
    assert FileOptions(q.(page := Some(p))).sort == FileOptions(q).sort;
  }

  /** The file store ignores the year and price bounds: changing them
      changes nothing in the mock-mode list. */
  lemma FileIgnoresRangeBounds(s: FileStorage.Store, q: CarQuery, minYear: Option<string>,
                               maxYear: Option<string>, maxPrice: Option<string>)
    ensures ListFromFile(s, q.(minYear := minYear, maxYear := maxYear, maxPrice := maxPrice)) == ListFromFile(s, q)
  {
    var q' := q.(minYear := minYear, maxYear := maxYear, maxPrice := maxPrice);
    assert FileFilter(q') == FileFilter(q) && FileOptions(q') == FileOptions(q);
    assert PageOf(q') == PageOf(q) && LimitOf(q') == LimitOf(q);
  }

  // ---------------------------------------------------------------------
  // The list endpoint on the database.

  /** A range bound of the query: not given (or empty), a number, or text
      that parses to NaN. */
  datatype Bound = NoBound | AtValue(v: real) | Unparsable

  /** `parseInt` of a bound that is given. */
  function IntBound(o: Option<string>): (b: Bound)
    ensures b.NoBound? <==> !TruthyString(o)
    ensures b.Unparsable? <==> TruthyString(o) && !IsDigit(o.value[0])
  {
    if !TruthyString(o) then NoBound
    else
      var v := ParseInt(o.value);
      if v.Some? then AtValue(v.value as real) else Unparsable
  }

  /** `parseFloat` of a bound that is given. */
  function FloatBound(o: Option<string>): (b: Bound)
    ensures b.NoBound? <==> !TruthyString(o)
    ensures b.AtValue? ==> b.v >= 0.0
  {
    if !TruthyString(o) then NoBound
    else
      var v := ParseFloat(o.value);
      if v.Some? then AtValue(v.value) else Unparsable
  }

  /** The database filter the query builds. */
  datatype DbFilter = DbFilter(make: Option<string>, model: Option<string>, minYear: Bound, maxYear: Bound,
                               minProfit: Bound, maxPrice: Bound)

  function DbFilterOf(q: CarQuery): DbFilter {
    DbFilter(
      if TruthyString(q.make) then q.make else None,
      if TruthyString(q.model) then q.model else None,
      IntBound(q.minYear), IntBound(q.maxYear), FloatBound(q.minProfit), FloatBound(q.maxPrice))
  }

  /** The store casts every bound to a number and refuses NaN. */
  predicate Castable(f: DbFilter) {
    !f.minYear.Unparsable? && !f.maxYear.Unparsable? && !f.minProfit.Unparsable? && !f.maxPrice.Unparsable?
  }

  /** `{$gte: b}` and `{$lte: b}` on an optional field: an absent field
      fails every bound that is set. */
  predicate AtLeastBound(x: Option<real>, b: Bound) {
    b.AtValue? ==> x.Some? && x.value >= b.v
  }

  predicate AtMostBound(x: Option<real>, b: Bound) {
    b.AtValue? ==> x.Some? && x.value <= b.v
  }

  function AsReal(o: Option<int>): Option<real> {
    if o.Some? then Some(o.value as real) else None
  }

  /** A case-insensitive pattern on a text field: the field exists and
      contains the pattern. */
  predicate PatternMatches(field: Option<string>, pattern: Option<string>) {
    pattern.Some? ==> field.Some? && IncludesIgnoreCase(field.value, pattern.value)
  }

  /** An active listing that passes every part of the filter that is set. */
  predicate DbMatches(f: DbFilter, c: Car) {
    && IsActive(c)
    && PatternMatches(c.make, f.make)
    && PatternMatches(c.model, f.model)
    && AtLeastBound(AsReal(c.year), f.minYear)
    && AtMostBound(AsReal(c.year), f.maxYear)
    && AtLeastBound(c.estimatedProfit, f.minProfit)
    && AtMostBound(c.japanPrice, f.maxPrice)
  }

  function DbMatcher(f: DbFilter): Car -> bool {
    c => DbMatches(f, c)
  }

  /** Whether the sort field is stored on the listing (a non-finite margin
      is not). */
  predicate FieldPresent(field: FileStorage.SortField, c: Car) {
    match field
    case ProfitabilityScore => c.profitabilityScore.Some?
    case EstimatedProfit => c.estimatedProfit.Some?
    case ProfitMargin => c.profitMargin.Some? && c.profitMargin.value.Finite?
    case JapanPrice => c.japanPrice.Some?
    case Year => c.year.Some?
    case Mileage => c.mileage.Some?
    case AfricaResaleValue => c.africaResaleValue.Some?
    case EstimatedTotalCost => c.estimatedTotalCost.Some?
    case LastUpdated => c.lastUpdated.Some?
    case CreatedAt => c.createdAt.Some?
  }

  /** The database's sort key: an absent field sorts below every number. */
  function DbKey(field: FileStorage.SortField): Record -> SortKey {
    (r: Record) => if FieldPresent(field, r.car) then Value(FileStorage.FieldValue(field, r.car)) else Missing
  }

  /** Every listing the database filter selects, in the requested order. */
  function DbMatchesSorted(rs: seq<Record>, q: CarQuery): seq<Record> {
    SortBy(Where(rs, DbMatcher(DbFilterOf(q))), DbKey(SortFieldOf(q)), Direction(q) == 1)
  }

  /** The list endpoint on the database: the sort, then the skip of
      earlier pages, then at most `limit` listings (all of them for a
      limit of 0; a negative limit counts as its magnitude). A NaN bound or
      a negative skip fails the query. */
  function ListFromDatabase(rs: seq<Record>, q: CarQuery): (l: Listing)
    ensures l.ServerError? <==> !Castable(DbFilterOf(q)) || (PageOf(q) - 1) * LimitOf(q) < 0
    ensures l.Listing? ==> l.currentPage == PageOf(q) && l.total == Count(rs, DbMatcher(DbFilterOf(q)))
    ensures l.Listing? ==> forall i :: 0 <= i < |l.cars| ==> l.cars[i] in rs && DbMatches(DbFilterOf(q), l.cars[i].car)
    ensures l.Listing? ==> SortedBy(l.cars, DbKey(SortFieldOf(q)), Direction(q) == 1)
    ensures l.Listing? && LimitOf(q) > 0 ==> PageOf(q) >= 1
    ensures l.Listing? && LimitOf(q) > 0 && PageOf(q) >= 1 ==>
      l.cars == FileStorage.Page(DbMatchesSorted(rs, q), PageOf(q), LimitOf(q))
    ensures l.Listing? && LimitOf(q) == 0 ==> l.cars == DbMatchesSorted(rs, q)
  {
    var f := DbFilterOf(q);
    var limit := LimitOf(q);
    var skip := (PageOf(q) - 1) * limit;
    if !Castable(f) || skip < 0 then ServerError
    else
      var all := DbMatchesSorted(rs, q);
      var cars := SkipLimit(all, skip, limit);
      DbListingFacts(rs, q, all, skip, cars);
      Listing(cars, TotalPages(|all|, limit), PageOf(q), |all|)
  }

  /** `skip(k).limit(n)` on an ordered list: everything after the first
      `k` for a limit of 0, otherwise at most `|n|` listings. */
  function SkipLimit(all: seq<Record>, skip: nat, limit: int): (r: seq<Record>)
    ensures forall i :: 0 <= i < |r| ==> r[i] in all
    ensures limit != 0 ==> |r| <= if limit < 0 then -limit else limit
  {
    var n := if limit == 0 then |all| else if limit < 0 then -limit else limit;
    FileStorage.Slice(all, skip, skip + n)
  }

  /** What one database page holds, given the ordered matches `all`. */
  lemma DbListingFacts(rs: seq<Record>, q: CarQuery, all: seq<Record>, skip: nat, cars: seq<Record>)
    requires all == DbMatchesSorted(rs, q) && skip == (PageOf(q) - 1) * LimitOf(q)
    requires cars == SkipLimit(all, skip, LimitOf(q))
    ensures |all| == Count(rs, DbMatcher(DbFilterOf(q)))
    ensures forall i :: 0 <= i < |cars| ==> cars[i] in rs && DbMatches(DbFilterOf(q), cars[i].car)
    ensures SortedBy(cars, DbKey(SortFieldOf(q)), Direction(q) == 1)
    ensures LimitOf(q) > 0 ==> PageOf(q) >= 1 && cars == FileStorage.Page(all, PageOf(q), LimitOf(q))
    ensures LimitOf(q) == 0 ==> cars == all
  {
    var limit := LimitOf(q);
    DbListingSorted(rs, q, all, skip, cars);
    DbMatchesSortedSound(rs, q);
    if limit > 0 {
      SkipLimitPage(all, PageOf(q), limit, skip);
    } else if limit == 0 {
      assert skip == 0;
      assert cars == all[0..|all|];
    }
  }

  lemma DbListingSorted(rs: seq<Record>, q: CarQuery, all: seq<Record>, skip: nat, cars: seq<Record>)
    requires all == DbMatchesSorted(rs, q) && cars == SkipLimit(all, skip, LimitOf(q))
    ensures SortedBy(cars, DbKey(SortFieldOf(q)), Direction(q) == 1)
  {
    var key := DbKey(SortFieldOf(q));
    var asc := Direction(q) == 1;
    assert all == SortBy(Where(rs, DbMatcher(DbFilterOf(q))), key, asc);
    SkipLimitSorted(all, skip, LimitOf(q), key, asc);
  }

  lemma SkipLimitSorted(all: seq<Record>, skip: nat, limit: int, key: Record -> SortKey, ascending: bool)
    requires SortedBy(all, key, ascending)
    ensures SortedBy(SkipLimit(all, skip, limit), key, ascending)
  {
    var n := if limit == 0 then |all| else if limit < 0 then -limit else limit;
    SliceSorted(all, skip, skip + n, key, ascending);
  }

  /** With a positive limit, skipping `(p - 1) * limit` listings reads
      page `p`, and only a page from 1 on skips a non-negative number. */
  lemma SkipLimitPage(all: seq<Record>, p: int, limit: int, skip: nat)
    requires limit > 0 && skip == (p - 1) * limit
    ensures p >= 1 && SkipLimit(all, skip, limit) == FileStorage.Page(all, p, limit)
  {
    if p < 1 {
      MulStrict((p - 1) as real, 0.0, limit as real);
    }
  }

  /** The ordered list holds exactly the matching listings. */
  lemma DbMatchesSortedSound(rs: seq<Record>, q: CarQuery)
    ensures |DbMatchesSorted(rs, q)| == Count(rs, DbMatcher(DbFilterOf(q)))
    ensures forall i :: 0 <= i < |DbMatchesSorted(rs, q)| ==>
      DbMatchesSorted(rs, q)[i] in rs && DbMatches(DbFilterOf(q), DbMatchesSorted(rs, q)[i].car)
    ensures multiset(DbMatchesSorted(rs, q)) == multiset(Where(rs, DbMatcher(DbFilterOf(q))))
  {
    var w := Where(rs, DbMatcher(DbFilterOf(q)));
    var all := DbMatchesSorted(rs, q);
    CountIsWhereLength(rs, DbMatcher(DbFilterOf(q)));
    forall i | 0 <= i < |all| ensures all[i] in rs && DbMatches(DbFilterOf(q), all[i].car) {
      assert all[i] in multiset(w);
    }
  }

  /** A slice of a sorted sequence is sorted. */
  lemma SliceSorted<T>(s: seq<T>, start: int, end: int, key: T -> SortKey, ascending: bool)
    requires SortedBy(s, key, ascending)
    ensures SortedBy(FileStorage.Slice(s, start, end), key, ascending)
  {
    var a := FileStorage.SliceBound(start, |s|);
    var b := FileStorage.SliceBound(end, |s|);
    if a <= b {
      var r := s[a..b];
      assert forall i :: 0 <= i < |r| ==> r[i] == s[a + i];
    }
  }

  /** Pages 1 to `totalPages` of the database list show every matching
      listing exactly once, in the requested order. */
  lemma DatabasePagesCoverAll(rs: seq<Record>, q: CarQuery, l: Listing)
    requires LimitOf(q) > 0 && l == ListFromDatabase(rs, q) && l.Listing?
    ensures l.totalPages.Finite?
    ensures FileStorage.Pages(DbMatchesSorted(rs, q), l.totalPages.value.Floor, LimitOf(q)) == DbMatchesSorted(rs, q)
  {
    DbMatchesSortedSound(rs, q);
    PagesCoverAll(DbMatchesSorted(rs, q), l.total, LimitOf(q));
  }

  /** Every page from 1 on of the database list is the matching slice of
      the whole ordered list. */
  lemma DatabasePageIsSlice(rs: seq<Record>, q: CarQuery, p: int, l: Listing)
    requires LimitOf(q) > 0 && p >= 1 && Castable(DbFilterOf(q))
    requires l == ListFromDatabase(rs, q.(page := Some(p)))
    ensures l.Listing? && l.cars == FileStorage.Page(DbMatchesSorted(rs, q), p, LimitOf(q))
  {
    var q' := q.(page := Some(p));
    NonNegativeSkip(p, LimitOf(q));
    assert l.Listing?;
    SamePageOrder(rs, q, q');
  }

  /** The ordered matches do not depend on the page asked for. */
  lemma SamePageOrder(rs: seq<Record>, q: CarQuery, q': CarQuery)
    requires q' == q.(page := q'.page)
    ensures DbMatchesSorted(rs, q') == DbMatchesSorted(rs, q)
  {
    assert DbFilterOf(q') == DbFilterOf(q);
    assert SortFieldOf(q') == SortFieldOf(q) && Direction(q') == Direction(q);
  }

  lemma NonNegativeSkip(p: int, limit: int)
    requires p >= 1 && limit >= 0
    ensures (p - 1) * limit >= 0
  {
  }

  /** The two stores disagree on the profit bound: the database keeps a
      listing whose profit equals `minProfit`, the file store drops it. */
  lemma ProfitBoundDiffers(r: Record, profit: nat, id: nat)
    requires IsActive(r.car) && r.car.estimatedProfit == Some(profit as real)
    ensures var q := DefaultQuery.(minProfit := Some(ShowNat(profit)));
      && ListFromDatabase([r], q).cars == [r]
      && ListFromFile(FileStorage.Store([r], id), q).cars == []
  {
    var q := DefaultQuery.(minProfit := Some(ShowNat(profit)));
    ParseNumeral(profit, "");
    assert ShowNat(profit) + "" == ShowNat(profit);
    assert FloatBound(q.minProfit) == AtValue(profit as real);
    assert DbMatches(DbFilterOf(q), r.car);
    assert Where([r], DbMatcher(DbFilterOf(q))) == [r];
    assert !FileStorage.Matches(FileFilter(q), r.car);
    NoneMatch([r], FileStorage.Matcher(FileFilter(q)));
  }

  /** The list endpoint on whichever store the mode selects: only the
      database path can fail; a listing reports the page asked for and
      shows only active listings of the selected store. */
  function ListCars(useMockData: bool, s: FileStorage.Store, rs: seq<Record>, q: CarQuery): (l: Listing)
    ensures l.ServerError? ==> !useMockData
    ensures l.Listing? ==> l.currentPage == PageOf(q)
    ensures l.Listing? ==> forall i :: 0 <= i < |l.cars| ==>
      IsActive(l.cars[i].car) && l.cars[i] in (if useMockData then s.records else rs)
    ensures useMockData ==> l.total == Count(s.records, FileStorage.Matcher(FileFilter(q)))
    ensures !useMockData && l.Listing? ==> l.total == Count(rs, DbMatcher(DbFilterOf(q)))
  {
    if useMockData then ListFromFile(s, q) else ListFromDatabase(rs, q)
  }

  // ---------------------------------------------------------------------
  // The best-scored listings.

  /** `{isActive: true, profitabilityScore: {$gt: 0}}`. */
  predicate ActiveScored(c: Car) {
    IsActive(c) && c.profitabilityScore.Some? && c.profitabilityScore.value > 0
  }

  function ScoreOf(r: Record): int {
    r.car.profitabilityScore.GetOr(0)
  }

  /** How many listings a store `limit(n)` returns at most: all for 0, and
      the magnitude otherwise. */
  function LimitCount(n: int, available: nat): (k: nat)
    ensures n == 0 ==> k >= available
    ensures n != 0 ==> k == if n < 0 then -n else n
  {
    if n == 0 then available else if n < 0 then -n else n
  }

  /** The active listings with a positive score, best first, at most
      `limit` of them (10 by default). */
  function TopProfitableCars(rs: seq<Record>, limit: Option<int>): (top: seq<Record>)
    ensures var k := LimitCount(limit.GetOr(10), |rs|);
      |top| == Min(k as real, Count(rs, ActiveScored) as real) as int
    ensures limit.Some? && limit.value == 0 ==> |top| == Count(rs, ActiveScored)
    ensures forall i :: 0 <= i < |top| ==> top[i] in rs && ActiveScored(top[i].car)
    ensures forall i, j :: 0 <= i < j < |top| ==> ScoreOf(top[j]) <= ScoreOf(top[i])
    ensures forall x :: x in Where(rs, ActiveScored) && x !in top ==>
      forall i :: 0 <= i < |top| ==> ScoreOf(x) <= ScoreOf(top[i])
  {
    CountIsWhereLength(rs, ActiveScored);
    var top := MongoStore.FindSorted(rs, ActiveScored, AdminRoutes.ScoreKey, false, LimitCount(limit.GetOr(10), |rs|));
    assert forall i :: 0 <= i < |top| ==> AdminRoutes.ScoreKey(top[i]).Value?;
    top
  }

  // ---------------------------------------------------------------------
  // One listing.

  datatype Lookup = Found(record: Record) | NotFound(error: string)

  /** The listing with the identifier, or a 404 answer "Car not found". */
  function GetCar(rs: seq<Record>, id: nat): (r: Lookup)
    ensures r.Found? <==> exists i :: 0 <= i < |rs| && rs[i].id == id
    ensures r.Found? ==> r.record in rs && r.record.id == id
    ensures r.NotFound? ==> r.error == "Car not found"
  {
    match MongoStore.FindById(rs, id)
    case Some(x) => Found(x)
    case None => NotFound("Car not found")
  }

  // ---------------------------------------------------------------------
  // Summary statistics.

  /** The database's summary: counts of active and of active profitable
      listings, their mean profit (0 when there are none), and the five
      largest make groups. */
  datatype Summary = Summary(totalCars: nat, profitableCars: nat, avgProfit: real,
                             topMakes: seq<Group<Option<string>>>)

  function DatabaseSummary(rs: seq<Record>): (s: Summary)
    ensures s.totalCars == Count(rs, IsActive)
    ensures s.profitableCars == Count(rs, AdminRoutes.ActiveProfitable)
    ensures s.profitableCars <= s.totalCars
    ensures s.avgProfit == FileStorage.MeanProfit(Where(rs, AdminRoutes.ActiveProfitable))
    ensures s.avgProfit > 0.0 <==> s.profitableCars > 0
    ensures MostFrequentOf(AdminRoutes.MakeKeys(Where(rs, IsActive)), 5, s.topMakes)
  {
    var active := Where(rs, IsActive);
    var g := Where(rs, AdminRoutes.ActiveProfitable);
    CountIsWhereLength(rs, IsActive);
    CountIsWhereLength(rs, AdminRoutes.ActiveProfitable);
    WhereMonotone(rs, AdminRoutes.ActiveProfitable, IsActive);
    Summary(|active|, |g|, FileStorage.MeanProfit(g), MostFrequent(AdminRoutes.MakeKeys(active), 5))
  }

  /** The two stores agree on the counts and the mean profit of the same
      listings. */
  lemma SummariesAgree(rs: seq<Record>, id: nat)
    ensures var f := FileStorage.GetStats(FileStorage.Store(rs, id));
      var d := DatabaseSummary(rs);
      f.totalCars == d.totalCars && f.profitableCars == d.profitableCars && f.avgProfit == d.avgProfit
  {
    var s := FileStorage.Store(rs, id);
    WhereSame(rs, FileStorage.Matcher(FileStorage.ActiveOnly), IsActive);
    WhereBoth(rs, IsActive, FileStorage.Profitable, AdminRoutes.ActiveProfitable);
    assert FileStorage.GetCars(s, FileStorage.ActiveOnly, FileStorage.NoOptions) == Where(rs, IsActive);
  }

  /** The statistics endpoint: the file store's statistics in mock mode,
      the database summary otherwise. */
  datatype Overview = FileOverview(stats: FileStorage.Stats) | DatabaseOverview(summary: Summary)

  function StatsOverview(useMockData: bool, s: FileStorage.Store, rs: seq<Record>): (o: Overview)
    ensures o.FileOverview? <==> useMockData
    ensures o.FileOverview? ==> o.stats == FileStorage.GetStats(s)
    ensures o.FileOverview? ==> o.stats.totalCars == Count(s.records, IsActive)
    ensures o.DatabaseOverview? ==> o.summary == DatabaseSummary(rs)
    ensures o.DatabaseOverview? ==> o.summary.totalCars == Count(rs, IsActive)
  {
    if useMockData then FileOverview(FileStorage.GetStats(s)) else DatabaseOverview(DatabaseSummary(rs))
  }
}
