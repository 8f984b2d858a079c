/**
 * The JSON values a standard-input document is made of, with the two pieces of
 * JavaScript behaviour the resolver relies on: truthiness (`if (!x)`, `a || b`)
 * and the text `Array.prototype.join(',')` makes of an array.
 *
 * The JSON text parser is not modelled: a document arrives already parsed.
 * A number is kept as the text JavaScript's `String()` shows for it, so `0`
 * and `-0` are both shown as `"0"`.
 */
module JsonValues {
  import opened Strings

  datatype Json =
    | JNull
    | JBool(b: bool)
    | JNumber(shown: string)
    | JString(s: string)
    | JArray(items: seq<Json>)
    | JObject(fields: map<string, Json>)

  /** JavaScript truthiness of a parsed JSON value (JSON has no `NaN`, so only zero is a falsy number). */
  predicate Truthy(j: Json)
  {
    match j
    case JNull => false
    case JBool(b) => b
    case JNumber(shown) => shown != "0"
    case JString(s) => s != ""
    case JArray(_) => true
    case JObject(_) => true
  }

  /** `String(j)`. */
  function Text(j: Json): string
    decreases j, 1
  {
    match j
    case JNull => "null"
    case JBool(b) => if b then "true" else "false"
    case JNumber(shown) => shown
    case JString(s) => s
    case JArray(items) => Join(ItemTexts(items), ',')
    case JObject(_) => "[object Object]"
  }

  /** What `join` writes for one element: nothing for `null`, `String(j)` otherwise. */
  function ItemText(j: Json): string
    decreases j, 2
  {
    if j.JNull? then "" else Text(j)
  }

  function ItemTexts(items: seq<Json>): (r: seq<string>)
    ensures |r| == |items|
    decreases items, 0
  {
    if items == [] then [] else [ItemText(items[0])] + ItemTexts(items[1..])
  }

  /** A sequence of strings as a JSON array. */
  function StringItems(xs: seq<string>): (r: seq<Json>)
    ensures |r| == |xs|
    ensures forall i :: 0 <= i < |xs| ==> r[i] == JString(xs[i])
  {
    seq(|xs|, i requires 0 <= i < |xs| => JString(xs[i]))
  }

  /** Each element of a string array is written as itself. */
  lemma {:induction false} StringItemTexts(xs: seq<string>)
    ensures ItemTexts(StringItems(xs)) == xs
  {
    if xs != [] {
      var js := StringItems(xs);
      assert js[1..] == StringItems(xs[1..]);
      StringItemTexts(xs[1..]);
      assert ItemText(js[0]) == xs[0];
      assert ItemTexts(js) == [xs[0]] + xs[1..];
      assert [xs[0]] + xs[1..] == xs;
    }
  }

  /** An array of strings is shown as the strings joined with commas. */
  lemma StringArrayText(xs: seq<string>)
    ensures Text(JArray(StringItems(xs))) == Join(xs, ',')
  {
    StringItemTexts(xs);
  }

  /** A join is empty exactly when there is no part, or a single empty part. */
  lemma {:induction false} JoinEmpty(parts: seq<string>, sep: char)
    ensures Join(parts, sep) == "" <==> parts == [] || (|parts| == 1 && parts[0] == "")
  {
    if |parts| > 1 {
      assert |Join(parts, sep)| >= |parts[0] + [sep]|;
    }
  }
}
