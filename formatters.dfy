/** The KPI and chart-label formatters (utils/formatters.py).

    Only the choice of branch, prefix, suffix, scale and number of decimals
    is modelled: a `Number` stands for the text Python's format mini-language
    makes of `value` with the given decimals and thousands separators. */
module Formatters {
  import opened Wrappers

  datatype Text =
    | Literal(s: string)
    | Number(prefix: string, value: real, decimals: nat, commas: bool, suffix: string)

  const Dash: string := "—"

  function Abs(x: real): real
  {
    if x < 0.0 then -x else x
  }

  /** format_number: "—" for None/NaN, else M/K by magnitude with one
      decimal, or the plain number with none. */
  function FormatNumber(n: Option<real>): (t: Text)
    ensures t == Literal(Dash) <==> n.None?
    ensures n.Some? ==> t.Number? && t.prefix == "" && !t.commas
    ensures n.Some? && Abs(n.value) >= 1000000.0 ==>
      t.suffix == "M" && t.decimals == 1 && t.value * 1000000.0 == n.value
    ensures n.Some? && 1000.0 <= Abs(n.value) < 1000000.0 ==>
      t.suffix == "K" && t.decimals == 1 && t.value * 1000.0 == n.value
    ensures n.Some? && Abs(n.value) < 1000.0 ==> t.suffix == "" && t.decimals == 0 && t.value == n.value
  {
    match n
    case None => Literal(Dash)
    case Some(x) =>
      if Abs(x) >= 1000000.0 then Number("", x / 1000000.0, 1, false, "M")
      else if Abs(x) >= 1000.0 then Number("", x / 1000.0, 1, false, "K")
      else Number("", x, 0, false, "")
  }

  /** format_currency: "$", thousands separators, no decimals. */
  function FormatCurrency(n: Option<real>): (t: Text)
    ensures t == Literal(Dash) <==> n.None?
    ensures n.Some? ==> t == Number("$", n.value, 0, true, "")
  {
    match n
    case None => Literal(Dash)
    case Some(x) => Number("$", x, 0, true, "")
  }

  /** format_currency_precise: "$", thousands separators, two decimals. */
  function FormatCurrencyPrecise(n: Option<real>): (t: Text)
    ensures t == Literal(Dash) <==> n.None?
    ensures n.Some? ==> t == Number("$", n.value, 2, true, "")
  {
    match n
    case None => Literal(Dash)
    case Some(x) => Number("$", x, 2, true, "")
  }

  /** format_percent: a proportion is scaled by 100; a value above 1 is taken
      as a percentage already. */
  function FormatPercent(p: Option<real>): (t: Text)
    ensures t == Literal(Dash) <==> p.None?
    ensures p.Some? ==> t.Number? && t.prefix == "" && t.decimals == 2 && !t.commas && t.suffix == "%"
    ensures p.Some? && p.value > 1.0 ==> t.value == p.value
    ensures p.Some? && p.value <= 1.0 ==> t.value == p.value * 100.0
  {
    match p
    case None => Literal(Dash)
    case Some(x) =>
      if x > 1.0 then Number("", x, 2, false, "%")
      else Number("", x * 100.0, 2, false, "%")
  }

  /** The scale switch is not continuous: 1.0 prints as 100.00% while the
      larger 1.5 prints as 1.50%. */
  lemma PercentScaleJump()
    ensures FormatPercent(Some(1.0)) == Number("", 100.0, 2, false, "%")
    ensures FormatPercent(Some(1.5)) == Number("", 1.5, 2, false, "%")
  {
  }

  /** What `float(value)` gives: a conversion error, NaN, or a number. */
  datatype FloatValue = NotConvertible | NaN | Finite(x: real)

  /** format_km: "0" when the conversion fails; NaN fails every comparison
      and prints as "nan"; the K step starts at 10,000 and no absolute value
      is taken. */
  function FormatKm(v: FloatValue): (t: Text)
    ensures v.NotConvertible? <==> t == Literal("0")
    ensures v.NaN? <==> t == Literal("nan")
    ensures v.Finite? && v.x >= 1000000.0 ==>
      t == Number("", v.x / 1000000.0, 1, false, "M") && t.value * 1000000.0 == v.x
    ensures v.Finite? && 10000.0 <= v.x < 1000000.0 ==>
      t == Number("", v.x / 1000.0, 1, false, "K") && t.value * 1000.0 == v.x
    ensures v.Finite? && v.x < 10000.0 ==> t == Number("", v.x, 0, true, "")
  {
    match v
    case NotConvertible => Literal("0")
    case NaN => Literal("nan")
    case Finite(x) =>
      if x >= 1000000.0 then Number("", x / 1000000.0, 1, false, "M")
      else if x >= 10000.0 then Number("", x / 1000.0, 1, false, "K")
      else Number("", x, 0, true, "")
  }

  /** Negative values never get a suffix, however large their magnitude. */
  lemma KmNegativesUnsuffixed(x: real)
    requires x < 0.0
    ensures FormatKm(Finite(x)).suffix == ""
  {
  }

  /** format_km and format_number disagree between 1,000 and 10,000:
      format_number already abbreviates with "K", format_km does not. */
  lemma KmThresholdDiffers(x: real)
    requires 1000.0 <= x < 10000.0
    ensures FormatNumber(Some(x)).suffix == "K"
    ensures FormatKm(Finite(x)).suffix == ""
  {
  }
}
