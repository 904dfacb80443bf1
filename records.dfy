/**
  One published notice ("edital") as the dashboard reads it: the three fields
  the aggregators consume, `mes_jrl`, `cardern_jrl` and `pgn_jrl`.
*/
module Records {
  import opened Wrappers
  import Strings

  /** A raw `cardern_jrl` value as it arrives in the JSON payload. */
  datatype CatValue = Missing | Null | Text(text: string) | Number(n: int)

  /**
    `month` is the result of `parseInt(mes_jrl)` (`None` for `NaN`), `cat`
    the raw `cardern_jrl`, `page` the number `pgn_jrl` coerces to
    in arithmetic (0 for `null`, `""` or `false`).
  */
  datatype Record = Record(month: Option<int>, cat: CatValue, page: int)

  /**
    A category value interpolated into a template literal: `${cardern_jrl}`.
    A missing value reads `undefined`, null reads `null`, a string is itself,
    and a number is its decimal rendering, which `parseInt` reads back.
  */
  function Render(c: CatValue): (r: string)
    ensures c.Missing? ==> r == "undefined"
    ensures c.Null? ==> r == "null"
    ensures c.Text? ==> r == c.text
    ensures c.Number? ==> Strings.ParseInt(r) == Some(c.n)
  {
    match c
    case Missing => "undefined"
    case Null => "null"
    case Text(t) => t
    case Number(n) =>
      Strings.IntRoundTrip(n);
      Strings.IntToString(n)
  }
}
