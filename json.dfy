/** The JSON built-ins the handler calls, kept abstract: how values are parsed and printed is
    the runtime's business, and only the shape of the array text (line 43) is spelled out. */
module Json {
  import opened Wrappers

  /** `JSON.parse` (which may throw, with a message), `JSON.stringify` on a parsed value,
      and `JSON.stringify` on a string (its quoted and escaped text). */
  datatype Codec<!J> = Codec(parse: string -> Result<J>, stringify: J -> string, quote: string -> string)

  /** `JSON.stringify(items)` for an array of strings: the quoted items, comma separated,
      in brackets. */
  function ArrayText(items: seq<string>, quote: string -> string): (r: string)
    ensures |r| >= 2 && r[0] == '[' && r[|r| - 1] == ']'
    ensures items == [] ==> r == "[]"
    ensures |items| == 1 ==> r == "[" + quote(items[0]) + "]"
  {
    "[" + Elements(items, quote) + "]"
  }

  function Elements(items: seq<string>, quote: string -> string): string {
    if items == [] then ""
    else if |items| == 1 then quote(items[0])
    else quote(items[0]) + "," + Elements(items[1..], quote)
  }
}
