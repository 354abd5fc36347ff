/** The records that flow through the arbitrage pipeline before persistence:
    a raw foreign-market listing and a destination-market valuation. */
module Domain {
  import opened Common

  /** A listing as a source produces it. `price` is in yen; `scrapedAt` is
      the acquisition time in milliseconds. Optional attributes are absent
      when the source does not provide them. */
  datatype Listing = Listing(
    make: string,
    model: string,
    year: int,
    mileage: Option<int>,
    price: real,
    condition: Option<string>,
    engineSize: Option<string>,
    fuelType: Option<string>,
    transmission: Option<string>,
    bodyType: Option<string>,
    color: Option<string>,
    location: Option<string>,
    url: Option<string>,
    source: string,
    auctionGrade: Option<string>,
    auctionDate: Option<string>,
    scrapedAt: int)

  /** A resale estimate in US dollars, tagged with the tier that produced it. */
  datatype ResaleValue = ResaleValue(
    lowValue: Option<real>,
    highValue: Option<real>,
    averageValue: Option<real>,
    currency: string,
    source: string,
    sampleSize: Option<nat>)

  /** Every value is present and they are ordered low <= average <= high. */
  predicate OrderedEstimate(v: ResaleValue) {
    && v.lowValue.Some? && v.averageValue.Some? && v.highValue.Some?
    && v.lowValue.value <= v.averageValue.value <= v.highValue.value
  }

  /** A listing together with the valuation the enrichment step attached. */
  datatype EnrichedListing = EnrichedListing(car: Listing, resaleValue: Option<ResaleValue>)
}
