/** The `item.field || fallback` pattern the chart labels and table cells use
    to show a record's value as text. */
module Display {
  import opened Options
  import opened JsNumber
  import opened CsvParser

  /** JavaScript truthiness of a stored value: the empty string and zero are
      falsy. */
  predicate Truthy(f: Field) {
    match f
    case IntVal(i) => i != 0
    case RealVal(r) => r != 0.0
    case Text(s) => s != ""
  }

  /** The text of `item[name]` when it is truthy and the model can render it
      (text, or an integer in decimal), `None` when `item[name] || fallback`
      shows the fallback. */
  function TextOf(e: Entry, name: string): (r: Option<string>)
    ensures r.Some? ==> name in e && Truthy(e[name]) && r.value != ""
    ensures name in e && e[name].Text? && e[name].s != "" ==> r == Some(e[name].s)
    ensures name !in e ==> r.None?
  {
    if name !in e then None
    else match e[name]
      case Text(s) => if s == "" then None else Some(s)
      case IntVal(i) => if i == 0 then None else Some(ShowInt(i))
      case RealVal(_) => None
  }

  /** `item[name] || fallback` as text. */
  function ShowOr(e: Entry, name: string, fallback: string): (r: string)
    ensures TextOf(e, name).None? ==> r == fallback
    ensures TextOf(e, name).Some? ==> r == TextOf(e, name).value
  {
    match TextOf(e, name)
    case None => fallback
    case Some(s) => s
  }

  /** A truthy integer value is shown in decimal, and that text reads back
      as the same integer under `parseInt`. */
  lemma IntTextRoundTrip(e: Entry, name: string)
    requires name in e && e[name].IntVal? && e[name].i != 0
    ensures TextOf(e, name) == Some(ShowInt(e[name].i))
    ensures ParseInt(TextOf(e, name).value) == Some(e[name].i)
  {
    ParseIntShowInt(e[name].i, "");
    assert ShowInt(e[name].i) + "" == ShowInt(e[name].i);
  }

  /** On a parsed record, a text column is shown as stored when non-empty, and
      the fallback is shown exactly when the column is absent or empty. */
  lemma ParsedTextColumn(e: Entry, name: string, fallback: string)
    requires WellTyped(e)
    requires name != "year" && name != "id" && name != "estimatedLoss"
    ensures ShowOr(e, name, fallback) == fallback <==> name !in e || e[name].s == "" || e[name].s == fallback
    ensures name in e && e[name].s != "" ==> ShowOr(e, name, fallback) == e[name].s
  {
    if name in e {
      assert FieldShape(name, e[name]);
    }
  }
}
