/** Shared vocabulary: optional values, JavaScript numbers that may be
    non-finite, rounding, and the unit interval that random draws live in. */
module Common {

  /** A value that may be absent (JavaScript `undefined` or `null`). */
  datatype Option<+T> = None | Some(value: T) {
    function GetOr(default: T): T {
      match this
      case Some(v) => v
      case None => default
    }
  }

  /** JavaScript truthiness of an optional number: present and non-zero. */
  predicate Truthy(o: Option<real>) {
    o.Some? && o.value != 0.0
  }

  /** JavaScript truthiness of an optional integer. */
  predicate TruthyInt(o: Option<int>) {
    o.Some? && o.value != 0
  }

  /** JavaScript truthiness of an optional string: present and non-empty. */
  predicate TruthyString(o: Option<string>) {
    o.Some? && |o.value| > 0
  }

  /** An IEEE-754 double as far as the source's divisions need it: a finite
      value, or one of the non-finite outcomes of dividing by zero. */
  datatype Num = Finite(value: real) | PosInf | NegInf | NaN

  /** JavaScript `a / b` on finite operands. */
  function Quotient(a: real, b: real): (q: Num)
    ensures b != 0.0 ==> q == Finite(a / b)
    ensures b == 0.0 ==> (q.PosInf? <==> a > 0.0) && (q.NegInf? <==> a < 0.0) && (q.NaN? <==> a == 0.0)
  {
    if b != 0.0 then Finite(a / b)
    else if a > 0.0 then PosInf
    else if a < 0.0 then NegInf
    else NaN
  }

  /** JavaScript `n >= t` for a finite threshold `t` (false on NaN). */
  predicate AtLeast(n: Num, t: real) {
    match n
    case Finite(v) => v >= t
    case PosInf => true
    case NegInf => false
    case NaN => false
  }

  /** The order on non-NaN numbers: -Infinity < every finite value < +Infinity. */
  predicate NumLe(a: Num, b: Num) {
    && !a.NaN? && !b.NaN?
    && (a.NegInf? || b.PosInf? || (a.Finite? && b.Finite? && a.value <= b.value))
  }

  lemma AtLeastMonotone(a: Num, b: Num, t: real)
    requires NumLe(a, b) && AtLeast(a, t)
    ensures AtLeast(b, t)
  {
  }

  /** `Math.floor` on an exact real. */
  function Floor(x: real): (r: int)
    ensures r as real <= x < r as real + 1.0
  {
    x.Floor
  }

  /** `Math.ceil` on an exact real. */
  function Ceil(x: real): (r: int)
    ensures r as real - 1.0 < x <= r as real
  {
    if x.Floor as real == x then x.Floor else x.Floor + 1
  }

  /** `Math.round`: halves round towards +Infinity. */
  function Round(x: real): (r: int)
    ensures x - 0.5 < r as real <= x + 0.5
  {
    Floor(x + 0.5)
  }

  lemma RoundMonotone(x: real, y: real)
    requires x <= y
    ensures Round(x) <= Round(y)
  {
  }

  function Max(a: real, b: real): (r: real)
    ensures r >= a && r >= b && (r == a || r == b)
  {
    if a >= b then a else b
  }

  function Min(a: real, b: real): (r: real)
    ensures r <= a && r <= b && (r == a || r == b)
  {
    if a <= b then a else b
  }

  /** The mean of `n` terms adding up to `total`. */
  function Mean(total: real, n: nat): (m: real)
    requires n > 0
    ensures m * n as real == total
  {
    total / n as real
  }

  lemma MulLe(a: real, b: real, k: real)
    requires a <= b && k >= 0.0
    ensures a * k <= b * k
  {
  }

  lemma MulStrict(a: real, b: real, k: real)
    requires a < b && k > 0.0
    ensures a * k < b * k
  {
  }

  /** A value of `Math.random()`. */
  type Unit = r: real | 0.0 <= r < 1.0

  /** Milliseconds in one hour and one day. */
  const HourMs: int := 60 * 60 * 1000
  const DayMs: int := 24 * HourMs
}
