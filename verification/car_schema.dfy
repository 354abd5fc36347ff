/** The stored car listing: every field of the schema, each possibly
    absent, and what the schema adds on insertion (defaults and
    timestamps). Times are milliseconds. */
module CarSchema {
  import opened Common

  /** One stored listing. `None` is an absent (or null) field. */
  datatype Car = Car(
    make: Option<string>,
    model: Option<string>,
    year: Option<int>,
    mileage: Option<int>,
    condition: Option<string>,
    japanPrice: Option<real>,
    japanCurrency: Option<string>,
    japanListingUrl: Option<string>,
    japanAuctionHouse: Option<string>,
    japanListingDate: Option<int>,
    africaResaleValue: Option<real>,
    africaCurrency: Option<string>,
    resaleDataSource: Option<string>,
    estimatedShippingCost: Option<real>,
    estimatedDutiesTaxes: Option<real>,
    estimatedTotalCost: Option<real>,
    estimatedProfit: Option<real>,
    profitMargin: Option<Num>,
    profitabilityScore: Option<int>,
    engineSize: Option<string>,
    fuelType: Option<string>,
    transmission: Option<string>,
    bodyType: Option<string>,
    color: Option<string>,
    lastUpdated: Option<int>,
    isActive: Option<bool>,
    scrapingSource: Option<string>,
    createdAt: Option<int>,
    updatedAt: Option<int>)

  /** A stored listing and its identifier. */
  datatype Record = Record(id: nat, car: Car)

  /** A listing with no field set. */
  const EmptyCar: Car := Car(None, None, None, None, None, None, None, None, None, None, None, None, None,
                             None, None, None, None, None, None, None, None, None, None, None, None, None,
                             None, None, None)

  /** The query `{ isActive: true }`. */
  predicate IsActive(c: Car) {
    c.isActive == Some(true)
  }

  /** `{isActive: true, lastUpdated: {$lt: now - days}}`: an active listing
      not refreshed for more than `days` days (a missing stamp never
      matches). */
  predicate ActiveOlderThan(now: int, days: nat, c: Car) {
    IsActive(c) && c.lastUpdated.Some? && c.lastUpdated.value < now - days * DayMs
  }

  /** `{isActive: false, lastUpdated: {$lt: now - days}}`. */
  predicate InactiveOlderThan(now: int, days: nat, c: Car) {
    c.isActive == Some(false) && c.lastUpdated.Some? && c.lastUpdated.value < now - days * DayMs
  }

  function StaleFor(now: int, days: nat): Car -> bool {
    c => ActiveOlderThan(now, days, c)
  }

  function OutdatedFor(now: int, days: nat): Car -> bool {
    c => InactiveOlderThan(now, days, c)
  }

  /** The schema's required fields are all present. */
  predicate HasRequiredFields(c: Car) {
    c.make.Some? && c.model.Some? && c.year.Some? && c.japanPrice.Some?
  }

  function OrDefault<T>(o: Option<T>, d: T): (r: Option<T>)
    ensures r.Some?
    ensures o.Some? ==> r == o
  {
    if o.Some? then o else Some(d)
  }

  /** What insertion adds: the declared defaults where a field is absent
      (currencies JPY and USD, `lastUpdated` now, `isActive` true) and both
      timestamps set to now. */
  function OnInsert(c: Car, now: int): (r: Car)
    ensures r.japanCurrency.Some? && r.africaCurrency.Some? && r.lastUpdated.Some? && r.isActive.Some?
    ensures c.isActive.None? ==> IsActive(r)
    ensures c.japanCurrency.None? ==> r.japanCurrency == Some("JPY")
    ensures c.africaCurrency.None? ==> r.africaCurrency == Some("USD")
    ensures c.lastUpdated.None? ==> r.lastUpdated == Some(now)
    ensures r.createdAt == Some(now) && r.updatedAt == Some(now)
    ensures r.(japanCurrency := c.japanCurrency, africaCurrency := c.africaCurrency, lastUpdated := c.lastUpdated,
               isActive := c.isActive, createdAt := c.createdAt, updatedAt := c.updatedAt) == c
  {
    c.(japanCurrency := OrDefault(c.japanCurrency, "JPY"),
       africaCurrency := OrDefault(c.africaCurrency, "USD"),
       lastUpdated := OrDefault(c.lastUpdated, now),
       isActive := OrDefault(c.isActive, true),
       createdAt := Some(now),
       updatedAt := Some(now))
  }

  /** Applying the insertion defaults twice at the same instant is the same
      as applying them once, and a field the document sets is never
      replaced by a default. */
  lemma OnInsertIdempotent(c: Car, now: int)
    ensures OnInsert(OnInsert(c, now), now) == OnInsert(c, now)
    ensures c.isActive.Some? ==> OnInsert(c, now).isActive == c.isActive
    ensures c.lastUpdated.Some? ==> OnInsert(c, now).lastUpdated == c.lastUpdated
  {
  }

  /** `$set`: every field the document sets overwrites the stored one; the
      others keep their stored values. */
  function SetFields(r: Car, d: Car): Car {
    Car(
      if d.make.Some? then d.make else r.make,
      if d.model.Some? then d.model else r.model,
      if d.year.Some? then d.year else r.year,
      if d.mileage.Some? then d.mileage else r.mileage,
      if d.condition.Some? then d.condition else r.condition,
      if d.japanPrice.Some? then d.japanPrice else r.japanPrice,
      if d.japanCurrency.Some? then d.japanCurrency else r.japanCurrency,
      if d.japanListingUrl.Some? then d.japanListingUrl else r.japanListingUrl,
      if d.japanAuctionHouse.Some? then d.japanAuctionHouse else r.japanAuctionHouse,
      if d.japanListingDate.Some? then d.japanListingDate else r.japanListingDate,
      if d.africaResaleValue.Some? then d.africaResaleValue else r.africaResaleValue,
      if d.africaCurrency.Some? then d.africaCurrency else r.africaCurrency,
      if d.resaleDataSource.Some? then d.resaleDataSource else r.resaleDataSource,
      if d.estimatedShippingCost.Some? then d.estimatedShippingCost else r.estimatedShippingCost,
      if d.estimatedDutiesTaxes.Some? then d.estimatedDutiesTaxes else r.estimatedDutiesTaxes,
      if d.estimatedTotalCost.Some? then d.estimatedTotalCost else r.estimatedTotalCost,
      if d.estimatedProfit.Some? then d.estimatedProfit else r.estimatedProfit,
      if d.profitMargin.Some? then d.profitMargin else r.profitMargin,
      if d.profitabilityScore.Some? then d.profitabilityScore else r.profitabilityScore,
      if d.engineSize.Some? then d.engineSize else r.engineSize,
      if d.fuelType.Some? then d.fuelType else r.fuelType,
      if d.transmission.Some? then d.transmission else r.transmission,
      if d.bodyType.Some? then d.bodyType else r.bodyType,
      if d.color.Some? then d.color else r.color,
      if d.lastUpdated.Some? then d.lastUpdated else r.lastUpdated,
      if d.isActive.Some? then d.isActive else r.isActive,
      if d.scrapingSource.Some? then d.scrapingSource else r.scrapingSource,
      if d.createdAt.Some? then d.createdAt else r.createdAt,
      if d.updatedAt.Some? then d.updatedAt else r.updatedAt)
  }

  /** Setting the same fields twice is setting them once; setting fields
      on a car that already carries them changes nothing; an empty update
      changes nothing. */
  lemma SetFieldsAlgebra(r: Car, d: Car)
    ensures SetFields(SetFields(r, d), d) == SetFields(r, d)
    ensures SetFields(SetFields(r, d), EmptyCar) == SetFields(r, d)
    ensures SetFields(r, EmptyCar) == r
    ensures SetFields(EmptyCar, d) == d
  {
  }

  /** After `$set`, a field reads as the document's value when the
      document sets it and as the stored value otherwise. */
  predicate Overwrites<T(==)>(given: Option<T>, stored: Option<T>, got: Option<T>) {
    (given.Some? ==> got == given) && (given.None? ==> got == stored)
  }

  /** Every one of the schema's fields behaves as `$set` promises: what the
      document sets reads back, and what it leaves out keeps its stored
      value. */
  lemma SetFieldsReadBack(r: Car, d: Car)
    ensures var s := SetFields(r, d);
      && Overwrites(d.make, r.make, s.make)
      && Overwrites(d.model, r.model, s.model)
      && Overwrites(d.year, r.year, s.year)
      && Overwrites(d.mileage, r.mileage, s.mileage)
      && Overwrites(d.condition, r.condition, s.condition)
      && Overwrites(d.japanPrice, r.japanPrice, s.japanPrice)
      && Overwrites(d.japanCurrency, r.japanCurrency, s.japanCurrency)
      && Overwrites(d.japanListingUrl, r.japanListingUrl, s.japanListingUrl)
      && Overwrites(d.japanAuctionHouse, r.japanAuctionHouse, s.japanAuctionHouse)
      && Overwrites(d.japanListingDate, r.japanListingDate, s.japanListingDate)
      && Overwrites(d.africaResaleValue, r.africaResaleValue, s.africaResaleValue)
      && Overwrites(d.africaCurrency, r.africaCurrency, s.africaCurrency)
      && Overwrites(d.resaleDataSource, r.resaleDataSource, s.resaleDataSource)
      && Overwrites(d.estimatedShippingCost, r.estimatedShippingCost, s.estimatedShippingCost)
      && Overwrites(d.estimatedDutiesTaxes, r.estimatedDutiesTaxes, s.estimatedDutiesTaxes)
      && Overwrites(d.estimatedTotalCost, r.estimatedTotalCost, s.estimatedTotalCost)
      && Overwrites(d.estimatedProfit, r.estimatedProfit, s.estimatedProfit)
      && Overwrites(d.profitMargin, r.profitMargin, s.profitMargin)
      && Overwrites(d.profitabilityScore, r.profitabilityScore, s.profitabilityScore)
      && Overwrites(d.engineSize, r.engineSize, s.engineSize)
      && Overwrites(d.fuelType, r.fuelType, s.fuelType)
      && Overwrites(d.transmission, r.transmission, s.transmission)
      && Overwrites(d.bodyType, r.bodyType, s.bodyType)
      && Overwrites(d.color, r.color, s.color)
      && Overwrites(d.lastUpdated, r.lastUpdated, s.lastUpdated)
      && Overwrites(d.isActive, r.isActive, s.isActive)
      && Overwrites(d.scrapingSource, r.scrapingSource, s.scrapingSource)
      && Overwrites(d.createdAt, r.createdAt, s.createdAt)
      && Overwrites(d.updatedAt, r.updatedAt, s.updatedAt)
  {
  }

  // ---------------------------------------------------------------------
  // Selections, shared by the database and the file store.

  /** `find(filter)`: the matching records in natural order. */
  function Where(rs: seq<Record>, p: Car -> bool): (r: seq<Record>)
    ensures |r| <= |rs|
    ensures forall i :: 0 <= i < |r| ==> p(r[i].car) && r[i] in rs
    ensures forall i :: 0 <= i < |rs| && p(rs[i].car) ==> rs[i] in r
  {
    if |rs| == 0 then []
    else
      var rest := Where(rs[1..], p);
      assert forall x :: x in rs[1..] ==> x in rs;
      if p(rs[0].car) then [rs[0]] + rest else rest
  }

  /** `find(filter)` keeps the natural order: the selection is the
      matching records at strictly increasing positions, and every matching
      position is one of them. */
  lemma {:induction false} WhereKeepsOrder(rs: seq<Record>, p: Car -> bool) returns (ix: seq<nat>)
    ensures Positions(rs, p, Where(rs, p), ix)
  {
    if |rs| == 0 {
      ix := [];
    } else {
      var rest := WhereKeepsOrder(rs[1..], p);
      var w := Where(rs[1..], p);
      assert Where(rs, p) == if p(rs[0].car) then [rs[0]] + w else w;
      ix := ConsPositions(rs, p, w, rest);
    }
  }

  /** `ix` lists, in increasing order, the positions in `rs` of the records
      in `w`, and every record of `rs` that passes `p` is among them. */
  ghost predicate Positions(rs: seq<Record>, p: Car -> bool, w: seq<Record>, ix: seq<nat>) {
    && |ix| == |w|
    && (forall k :: 0 <= k < |ix| ==> ix[k] < |rs| && w[k] == rs[ix[k]])
    && (forall k, l :: 0 <= k < l < |ix| ==> ix[k] < ix[l])
    && (forall i :: 0 <= i < |rs| && p(rs[i].car) ==> i in ix)
  }

  /** Positions in `rs[1..]`, and the first record's when it passes. */
  lemma ConsPositions(rs: seq<Record>, p: Car -> bool, w: seq<Record>, rest: seq<nat>) returns (ix: seq<nat>)
    requires |rs| > 0 && Positions(rs[1..], p, w, rest)
    ensures Positions(rs, p, if p(rs[0].car) then [rs[0]] + w else w, ix)
  {
    var shifted := ShiftPositions(rs, p, w, rest);
    if p(rs[0].car) {
      ix := PrependPosition(rs, p, w, shifted);
    } else {
      ix := shifted;
    }
  }

  /** Positions in `rs[1..]`, read as positions in `rs`. */
  lemma ShiftPositions(rs: seq<Record>, p: Car -> bool, w: seq<Record>, rest: seq<nat>) returns (shifted: seq<nat>)
    requires |rs| > 0 && Positions(rs[1..], p, w, rest)
    ensures |shifted| == |w|
    ensures forall k :: 0 <= k < |shifted| ==> 0 < shifted[k] < |rs| && w[k] == rs[shifted[k]]
    ensures forall k, l :: 0 <= k < l < |shifted| ==> shifted[k] < shifted[l]
    ensures forall i :: 1 <= i < |rs| && p(rs[i].car) ==> i in shifted
  {
    shifted := seq(|rest|, k requires 0 <= k < |rest| => rest[k] + 1);
    forall i | 1 <= i < |rs| && p(rs[i].car) ensures i in shifted {
      assert rs[1..][i - 1] == rs[i];
      var k :| 0 <= k < |rest| && rest[k] == i - 1;
      assert shifted[k] == i;
    }
  }

  lemma PrependPosition(rs: seq<Record>, p: Car -> bool, w: seq<Record>, shifted: seq<nat>) returns (ix: seq<nat>)
    requires |rs| > 0 && |shifted| == |w|
    requires forall k :: 0 <= k < |shifted| ==> 0 < shifted[k] < |rs| && w[k] == rs[shifted[k]]
    requires forall k, l :: 0 <= k < l < |shifted| ==> shifted[k] < shifted[l]
    requires forall i :: 1 <= i < |rs| && p(rs[i].car) ==> i in shifted
    ensures Positions(rs, p, [rs[0]] + w, ix)
  {
    ix := [0] + shifted;
    forall i | 0 <= i < |rs| && p(rs[i].car) ensures i in ix {
      if i > 0 {
        var k :| 0 <= k < |shifted| && shifted[k] == i;
        assert ix[k + 1] == i;
      }
    }
  }

  /** `countDocuments(filter)`. */
  function Count(rs: seq<Record>, p: Car -> bool): (n: nat)
    ensures n <= |rs|
  {
    if |rs| == 0 then 0 else (if p(rs[0].car) then 1 else 0) + Count(rs[1..], p)
  }

  /** The test that passes exactly the listings `p` rejects. */
  function Negate(p: Car -> bool): (q: Car -> bool)
    ensures forall c :: q(c) == !p(c)
  {
    c => !p(c)
  }

  /** Every record passes exactly one of a test and its complement. */
  lemma {:induction false} CountComplement(rs: seq<Record>, p: Car -> bool, q: Car -> bool)
    requires forall c :: q(c) == !p(c)
    ensures Count(rs, p) + Count(rs, q) == |rs|
  {
    if |rs| > 0 {
      CountComplement(rs[1..], p, q);
    }
  }

  /** Counting is the length of the filtered read. */
  lemma {:induction false} CountIsWhereLength(rs: seq<Record>, p: Car -> bool)
    ensures Count(rs, p) == |Where(rs, p)|
  {
    if |rs| > 0 {
      CountIsWhereLength(rs[1..], p);
    }
  }

  /** Reads distribute over concatenation. */
  lemma {:induction false} WhereConcat(a: seq<Record>, b: seq<Record>, p: Car -> bool)
    ensures Where(a + b, p) == Where(a, p) + Where(b, p)
  {
    if |a| == 0 {
      assert a + b == b;
    } else {
      assert (a + b)[0] == a[0] && (a + b)[1..] == a[1..] + b;
      WhereConcat(a[1..], b, p);
    }
  }

  /** Two tests that agree on every listing select the same records. */
  lemma {:induction false} WhereSame(rs: seq<Record>, p: Car -> bool, q: Car -> bool)
    requires forall c :: p(c) == q(c)
    ensures Where(rs, p) == Where(rs, q) && Count(rs, p) == Count(rs, q)
  {
    if |rs| > 0 {
      WhereSame(rs[1..], p, q);
    }
  }

  /** A test no record passes selects nothing; one every record passes
      selects them all. */
  lemma {:induction false} NoneMatch(rs: seq<Record>, p: Car -> bool)
    requires forall i :: 0 <= i < |rs| ==> !p(rs[i].car)
    ensures Where(rs, p) == []
  {
    if |rs| > 0 {
      NoneMatch(rs[1..], p);
    }
  }

  lemma {:induction false} AllMatch(rs: seq<Record>, p: Car -> bool)
    requires forall i :: 0 <= i < |rs| ==> p(rs[i].car)
    ensures Where(rs, p) == rs
  {
    if |rs| > 0 {
      AllMatch(rs[1..], p);
    }
  }

  /** Filtering twice is filtering once on both tests. */
  lemma {:induction false} WhereBoth(rs: seq<Record>, p: Car -> bool, q: Car -> bool, pq: Car -> bool)
    requires forall c :: pq(c) == (p(c) && q(c))
    ensures Where(Where(rs, p), q) == Where(rs, pq)
  {
    if |rs| > 0 {
      WhereBoth(rs[1..], p, q, pq);
      assert Where(rs, p) == (if p(rs[0].car) then [rs[0]] else []) + Where(rs[1..], p);
      if p(rs[0].car) {
        assert Where(rs, p)[0] == rs[0] && Where(rs, p)[1..] == Where(rs[1..], p);
      }
    }
  }

  /** A weaker test selects at least as many records. */
  lemma {:induction false} WhereMonotone(rs: seq<Record>, p: Car -> bool, q: Car -> bool)
    requires forall c :: p(c) ==> q(c)
    ensures |Where(rs, p)| <= |Where(rs, q)|
  {
    if |rs| > 0 {
      WhereMonotone(rs[1..], p, q);
    }
  }
}
