/** The synthetic listing generator. Every `Math.random()` the source draws
    is supplied as a `Unit` value; `currentYear` and `now` stand for the
    clock. */
module MockData {
  import opened Common
  import opened Text
  import opened Domain

  const CarMakes: seq<string> :=
    ["Toyota", "Honda", "Nissan", "Mazda", "Subaru", "Mitsubishi", "Suzuki"]

  const ModelsByMake: map<string, seq<string>> := map[
    "Toyota" := ["Prius", "Camry", "Corolla", "RAV4", "Highlander", "Land Cruiser", "Vitz"],
    "Honda" := ["Civic", "Accord", "CR-V", "Fit", "Pilot", "Odyssey", "HR-V"],
    "Nissan" := ["Altima", "Sentra", "Rogue", "Pathfinder", "Murano", "Note", "March"],
    "Mazda" := ["Mazda3", "Mazda6", "CX-5", "CX-9", "MX-5", "Demio", "Axela"],
    "Subaru" := ["Outback", "Forester", "Impreza", "Legacy", "XV", "Levorg", "WRX"],
    "Mitsubishi" := ["Outlander", "Lancer", "Pajero", "Eclipse", "Mirage"],
    "Suzuki" := ["Swift", "Vitara", "Jimny", "Alto", "Wagon R"]
  ]

  /** `modelsByMake[make]` for a make the generator can pick: always a
      non-empty list, so choosing a model is always defined. */
  function ModelsOf(make: string): (models: seq<string>)
    requires make in CarMakes
    ensures make in ModelsByMake && models == ModelsByMake[make]
    ensures |models| > 0
  {
    ModelsByMake[make]
  }

  /** `array[Math.floor(Math.random() * array.length)]`. */
  function RandomElement<T>(items: seq<T>, r: Unit): (x: T)
    requires |items| > 0
    ensures x in items
  {
    var n := |items| as real;
    MulLe(r, 1.0, n);
    items[Floor(r * n)]
  }

  const MinYear: int := 2010

  /** `Math.floor(2010 + b * (currentYear - 2010 + 1))`, where `b` is the
      biased draw `Math.pow(Math.random(), 0.5)`, itself in [0, 1). */
  function RandomYear(currentYear: int, bias: Unit): (year: int)
    ensures currentYear >= MinYear ==> MinYear <= year <= currentYear
  {
    var range := (currentYear - MinYear + 1) as real;
    if currentYear >= MinYear then
      MulLe(0.0, bias, range);
      MulLe(bias, 1.0, range);
      Floor(MinYear as real + bias * range)
    else Floor(MinYear as real + bias * range)
  }

  /** `Math.floor(Math.random() * 200000)`. */
  function RandomMileage(r: Unit): (mileage: nat)
    ensures mileage < 200000
  {
    MulLe(0.0, r, 200000.0);
    Floor(r * 200000.0)
  }

  /** `Math.pow(b, e)` for a positive base and an integer exponent. */
  function Pow(b: real, e: int): (p: real)
    requires b > 0.0
    ensures p > 0.0
    decreases if e < 0 then 1 - e else e
  {
    if e == 0 then 1.0
    else if e > 0 then
      var q := Pow(b, e - 1);
      MulLe(0.0, b, q);
      assert b * q != 0.0;
      b * q
    else 1.0 / Pow(b, -e)
  }

  const PremiumMakes: seq<string> := ["Toyota", "Honda", "Subaru"]
  const PopularModels: seq<string> := ["Prius", "Civic", "Corolla", "CR-V"]

  /** `Math.max(0.5, 1 - mileage / 300000)`. */
  function MileageFactor(mileage: int): (f: real)
    ensures f >= 0.5
    ensures mileage >= 0 ==> f <= 1.0
  {
    Max(0.5, 1.0 - mileage as real / 300000.0)
  }

  /** The make, model and age adjustments of the 2,000,000 yen base:
      x1.2 for a premium make, x1.15 for a popular model, 15% a year. */
  function AdjustedBase(make: string, model: string, year: int, currentYear: int): (p: real)
    ensures p > 0.0
  {
    var base1 := if make in PremiumMakes then 2000000.0 * 1.2 else 2000000.0;
    var base2 := if model in PopularModels then base1 * 1.15 else base1;
    var pw := Pow(1.0 - 0.15, currentYear - year);
    MulLe(0.0, base2, pw);
    assert base2 * pw != 0.0;
    base2 * pw
  }

  /** `0.8 + Math.random() * 0.4`. */
  function RandomFactor(r: Unit): (f: real)
    ensures 0.8 <= f < 1.2
  {
    0.8 + r * 0.4
  }

  /** The listing price before the floor is applied. */
  function BasePrice(make: string, model: string, year: int, mileage: int, currentYear: int, r: Unit): real {
    AdjustedBase(make, model, year, currentYear) * MileageFactor(mileage) * RandomFactor(r)
  }

  /** `Math.floor(Math.max(300000, basePrice))`: whole yen, at least 300000. */
  function RandomPrice(make: string, model: string, year: int, mileage: int, currentYear: int, r: Unit): (price: int)
    ensures price >= 300000
  {
    Floor(Max(300000.0, BasePrice(make, model, year, mileage, currentYear, r)))
  }

  /** A car with more kilometres is never priced higher, all else equal. */
  lemma PriceFallsWithMileage(make: string, model: string, year: int, m1: int, m2: int, currentYear: int, r: Unit)
    requires m1 <= m2
    ensures RandomPrice(make, model, year, m2, currentYear, r) <= RandomPrice(make, model, year, m1, currentYear, r)
  {
    var a := AdjustedBase(make, model, year, currentYear);
    var f1, f2 := MileageFactor(m1), MileageFactor(m2);
    assert f2 <= f1;
    MulLe(f2, f1, a);
    var x, y := a * f2, a * f1;
    assert x <= y;
    MulLe(x, y, RandomFactor(r));
    assert BasePrice(make, model, year, m2, currentYear, r) <= BasePrice(make, model, year, m1, currentYear, r);
  }

  // ---------------------------------------------------------------------
  // Weighted choice.

  function PrefixSum(weights: seq<real>, k: nat): real
    requires k <= |weights|
  {
    if k == 0 then 0.0 else PrefixSum(weights, k - 1) + weights[k - 1]
  }

  /** The cumulative weight up to and including index `j`. */
  function Cumulative(weights: seq<real>, j: nat): real
    requires j < |weights|
  {
    PrefixSum(weights, j + 1)
  }

  /** The loop of `weightedRandom`: `remaining` is what is left of the
      target after subtracting the weights before index `i`. */
  function PickFrom(weights: seq<real>, target: real, remaining: real, i: nat): (k: nat)
    requires i < |weights|
    requires remaining == target - PrefixSum(weights, i)
    requires forall j :: 0 <= j < i ==> Cumulative(weights, j) < target
    ensures i <= k < |weights|
    ensures forall j :: 0 <= j < k ==> Cumulative(weights, j) < target
    ensures k == |weights| - 1 || target <= PrefixSum(weights, k + 1)
    decreases |weights| - i
  {
    var next := remaining - weights[i];
    if next <= 0.0 then i
    else if i == |weights| - 1 then i
    else PickFrom(weights, target, next, i + 1)
  }

  /** The index `weightedRandom` returns: the first whose cumulative weight
      reaches `r * total`, or else the last. */
  function WeightedIndex(weights: seq<real>, r: Unit): (k: nat)
    requires |weights| > 0
    ensures k < |weights|
    ensures forall j :: 0 <= j < k ==> Cumulative(weights, j) < r * PrefixSum(weights, |weights|)
    ensures k == |weights| - 1 || r * PrefixSum(weights, |weights|) <= PrefixSum(weights, k + 1)
  {
    var target := r * PrefixSum(weights, |weights|);
    PickFrom(weights, target, target, 0)
  }

  function WeightedRandom<T>(items: seq<T>, weights: seq<real>, r: Unit): (x: T)
    requires |items| > 0 && |weights| == |items|
    ensures x in items
    ensures x == items[WeightedIndex(weights, r)]
  {
    items[WeightedIndex(weights, r)]
  }

  /** With weights 0.1, 0.4, 0.4, 0.1 a draw of 0.3 lands on the second
      condition, "Good" (0.1 < 0.3 <= 0.5). */
  lemma WeightedRandomExample()
    ensures WeightedRandom(Conditions, ConditionWeights, 0.3) == "Good"
  {
    assert PrefixSum(ConditionWeights, 1) == 0.1;
    assert PrefixSum(ConditionWeights, 2) == 0.5;
    assert PrefixSum(ConditionWeights, 4) == 1.0;
  }

  const Conditions: seq<string> := ["Excellent", "Good", "Fair", "Poor"]
  const ConditionWeights: seq<real> := [0.1, 0.4, 0.4, 0.1]
  const EngineSizes: seq<string> := ["1.0L", "1.3L", "1.5L", "1.8L", "2.0L", "2.4L", "3.0L", "3.5L"]
  const FuelTypes: seq<string> := ["Gasoline", "Hybrid", "Diesel", "Electric"]
  const FuelWeights: seq<real> := [0.6, 0.25, 0.1, 0.05]
  const Transmissions: seq<string> := ["Automatic", "Manual", "CVT"]
  const TransmissionWeights: seq<real> := [0.7, 0.2, 0.1]
  const BodyTypes: seq<string> := ["Sedan", "Hatchback", "SUV", "Wagon", "Coupe", "Convertible"]
  const BodyWeights: seq<real> := [0.3, 0.25, 0.2, 0.15, 0.08, 0.02]
  const Colors: seq<string> := ["White", "Black", "Silver", "Gray", "Blue", "Red", "Green", "Yellow"]
  const ColorWeights: seq<real> := [0.3, 0.25, 0.15, 0.1, 0.08, 0.07, 0.03, 0.02]
  const Locations: seq<string> := ["Tokyo", "Osaka", "Nagoya", "Yokohama", "Kobe", "Fukuoka", "Sapporo"]
  const MockSources: seq<string> := ["Mock Goo-net", "Mock USS Auction", "Mock JAA", "Mock TAA"]

  // ---------------------------------------------------------------------
  // The generator.

  /** The random draws spent on one car, in the order the source makes them. */
  datatype CarDraw = CarDraw(
    make: Unit, model: Unit, yearBias: Unit, mileage: Unit, price: Unit,
    condition: Unit, engineSize: Unit, fuelType: Unit, transmission: Unit,
    bodyType: Unit, color: Unit, location: Unit, source: Unit)

  const UrlPrefix: string := "https://mock-auction.jp/car/"

  /** The listing URL of the car at index `i`. */
  function MockUrl(i: nat): string {
    UrlPrefix + ShowNat(i + 1)
  }

  lemma MockUrlInjective(i: nat, j: nat)
    requires MockUrl(i) == MockUrl(j)
    ensures i == j
  {
    assert ShowNat(i + 1) == MockUrl(i)[|UrlPrefix|..];
    assert ShowNat(j + 1) == MockUrl(j)[|UrlPrefix|..];
    ShowNatInjective(i + 1, j + 1);
  }

  /** What a generated car promises whatever the draws. */
  predicate PlausibleMockCar(car: Listing, currentYear: int) {
    && car.make in CarMakes
    && car.model in ModelsOf(car.make)
    && (currentYear >= MinYear ==> MinYear <= car.year <= currentYear)
    && car.mileage.Some? && 0 <= car.mileage.value < 200000
    && car.price >= 300000.0 && car.price == car.price.Floor as real
    && car.source in MockSources
  }

  function MockCar(i: nat, d: CarDraw, currentYear: int, now: int): (car: Listing)
    ensures PlausibleMockCar(car, currentYear)
    ensures car.url == Some(MockUrl(i))
  {
    var make := RandomElement(CarMakes, d.make);
    var model := RandomElement(ModelsOf(make), d.model);
    var year := RandomYear(currentYear, d.yearBias);
    var mileage := RandomMileage(d.mileage);
    var price := RandomPrice(make, model, year, mileage, currentYear, d.price);
    Listing(
      make, model, year, Some(mileage), price as real,
      Some(WeightedRandom(Conditions, ConditionWeights, d.condition)),
      Some(RandomElement(EngineSizes, d.engineSize)),
      Some(WeightedRandom(FuelTypes, FuelWeights, d.fuelType)),
      Some(WeightedRandom(Transmissions, TransmissionWeights, d.transmission)),
      Some(WeightedRandom(BodyTypes, BodyWeights, d.bodyType)),
      Some(WeightedRandom(Colors, ColorWeights, d.color)),
      Some(RandomElement(Locations, d.location)),
      Some(MockUrl(i)),
      RandomElement(MockSources, d.source),
      None, None,
      now)
  }

  /** `generateMockCars(count)`: exactly `count` plausible cars whose URLs
      are pairwise distinct. Car `i` spends the draws `draws(i)`. */
  function GenerateMockCars(count: nat, currentYear: int, now: int, draws: nat -> CarDraw): (cars: seq<Listing>)
    ensures |cars| == count
    ensures forall i :: 0 <= i < count ==> PlausibleMockCar(cars[i], currentYear)
    ensures forall i :: 0 <= i < count ==> cars[i].url == Some(MockUrl(i))
    ensures forall i, j :: 0 <= i < j < count ==> cars[i].url != cars[j].url
  {
    var cars := seq(count, i requires 0 <= i => MockCar(i, draws(i), currentYear, now));
    assert forall i :: 0 <= i < count ==> cars[i] == MockCar(i, draws(i), currentYear, now);
    forall i, j | 0 <= i < j < count ensures cars[i].url != cars[j].url {
      if cars[i].url == cars[j].url {
        MockUrlInjective(i, j);
      }
    }
    cars
  }
}
