/** Temperature display units and the two fixed conversion formulas shared by the
    chart's retroactive conversion and the controller's ingestion of readings.
    Values are exact reals: floating-point rounding is not modelled. */
module Units {

  /** The two values the unit selector offers; the app spells them
      "farenheit" and "celsius". */
  datatype Unit = Fahrenheit | Celsius

  /** The other unit of the two. */
  function Opposite(u: Unit): Unit
  {
    match u
    case Fahrenheit => Celsius
    case Celsius => Fahrenheit
  }

  /** Celsius to Fahrenheit, `c * 1.8 + 32`; the Celsius formula undoes it. */
  function ToFahrenheit(c: real): (f: real)
    ensures (f - 32.0) / 1.8 == c
  {
    c * 1.8 + 32.0
  }

  /** Fahrenheit to Celsius, `(f - 32) / 1.8`; the Fahrenheit formula undoes it. */
  function ToCelsius(f: real): (c: real)
    ensures c * 1.8 + 32.0 == f
  {
    (f - 32.0) / 1.8
  }

  /** Rewrites one stored value into unit `to`: the body of the chart's
      conversion loop, which picks the formula by the newly selected unit. */
  function Convert(v: real, to: Unit): (r: real)
    ensures to == Fahrenheit ==> ToCelsius(r) == v
    ensures to == Celsius ==> ToFahrenheit(r) == v
  {
    match to
    case Fahrenheit => ToFahrenheit(v)
    case Celsius => ToCelsius(v)
  }

  /** Converting into one unit and then into the other restores the value exactly. */
  lemma ConvertRoundTrip(v: real, to: Unit)
    ensures Convert(Convert(v, to), Opposite(to)) == v
  {
  }

  /** Both formulas are strictly increasing, so conversion keeps the order of values. */
  lemma ConvertStrictlyIncreasing(a: real, b: real, to: Unit)
    requires a < b
    ensures Convert(a, to) < Convert(b, to)
  {
  }

  /** Example: the fixed points of the two scales, freezing and boiling water. */
  lemma ConvertLandmarks()
    ensures ToFahrenheit(0.0) == 32.0 && ToFahrenheit(100.0) == 212.0
    ensures ToCelsius(32.0) == 0.0 && ToCelsius(212.0) == 100.0
  {
  }
}
