/**
 * The parsed JSON that the authenticator inspects, as a tree of values, with
 * the two node operations it uses: field lookup (`has` / `get`) and the
 * compact text of a node (`toString`), followed by `replace("\"", "")`.
 */
module JsonTree {
  import opened Wrappers
  import opened JavaText

  /** A node of the tree the JSON parser builds. Object fields keep their
      order. */
  datatype Json =
    | JNull
    | JBool(b: bool)
    | JNumber(n: int)
    | JString(s: string)
    | JArray(items: seq<Json>)
    | JObject(fields: seq<Field>)

  datatype Field = Field(name: string, value: Json)

  function Lookup(fields: seq<Field>, name: string): (r: Option<Json>)
    ensures r.Some? <==> exists i :: 0 <= i < |fields| && fields[i].name == name
    ensures r.Some? ==> exists i :: 0 <= i < |fields| && fields[i] == Field(name, r.value)
  {
    if fields == [] then None
    else if fields[0].name == name then Some(fields[0].value)
    else Lookup(fields[1..], name)
  }

  /** `node.get(name)`: only an object node has named children; null otherwise. */
  function Get(node: Json, name: string): Option<Json> {
    if node.JObject? then Lookup(node.fields, name) else None
  }

  /** `node.has(name)`: true when the field is there, even with a JSON null. */
  predicate Has(node: Json, name: string) {
    Get(node, name).Some?
  }

  function UpperHexDigit(d: nat): char
    requires d < 16
  {
    if d < 10 then ('0' as int + d) as char else ('A' as int + d - 10) as char
  }

  /** How the JSON writer escapes one character inside a string literal. */
  function EscapeChar(c: char): string {
    var n := c as int;
    if c == '"' then "\\\""
    else if c == '\\' then "\\\\"
    else if n == 8 then "\\b"
    else if n == 9 then "\\t"
    else if n == 10 then "\\n"
    else if n == 12 then "\\f"
    else if n == 13 then "\\r"
    else if n < 32 then "\\u00" + [UpperHexDigit(n / 16), UpperHexDigit(n % 16)]
    else [c]
  }

  function Escape(s: string): string {
    if s == [] then "" else Escape(s[..|s| - 1]) + EscapeChar(s[|s| - 1])
  }

  function Quote(s: string): string {
    "\"" + Escape(s) + "\""
  }

  function Join(parts: seq<string>): string {
    if parts == [] then ""
    else if |parts| == 1 then parts[0]
    else Join(parts[..|parts| - 1]) + "," + parts[|parts| - 1]
  }

  /** `node.toString()`: the compact JSON text of the node. */
  function Serialize(node: Json): string
    decreases node
  {
    match node
    case JNull => "null"
    case JBool(b) => if b then "true" else "false"
    case JNumber(n) => IntToDecimal(n)
    case JString(s) => Quote(s)
    case JArray(items) =>
      "[" + Join(seq(|items|, i requires 0 <= i < |items| => Serialize(items[i]))) + "]"
    case JObject(fields) =>
      "{" + Join(seq(|fields|, i requires 0 <= i < |fields| =>
                       Quote(fields[i].name) + ":" + Serialize(fields[i].value))) + "}"
  }

  /** `s.replace("\"", "")`: every double quote removed, the rest kept in order. */
  function RemoveQuotes(s: string): (r: string)
    ensures '"' !in r
    ensures |r| <= |s|
    ensures !('"' in s) ==> r == s
  {
    if s == [] then ""
    else (if s[0] == '"' then "" else [s[0]]) + RemoveQuotes(s[1..])
  }

  /** The text the authenticator takes from a JSON field: `toString()` with
      every double quote removed. */
  function UnquotedText(node: Json): (r: string)
    ensures '"' !in r
  {
    RemoveQuotes(Serialize(node))
  }

  lemma {:induction false} RemoveQuotesConcat(a: string, b: string)
    ensures RemoveQuotes(a + b) == RemoveQuotes(a) + RemoveQuotes(b)
  {
    if a == [] {
      assert a + b == b;
    } else {
      assert (a + b)[0] == a[0];
      assert (a + b)[1..] == a[1..] + b;
      RemoveQuotesConcat(a[1..], b);
    }
  }

  /** A string with nothing the JSON writer escapes. */
  predicate IsPlain(s: string) {
    forall i :: 0 <= i < |s| ==> s[i] != '"' && s[i] != '\\' && s[i] as int >= 32
  }

  lemma {:induction false} EscapePlain(s: string)
    requires IsPlain(s)
    ensures Escape(s) == s
  {
    if s != [] {
      var init, last := s[..|s| - 1], s[|s| - 1];
      assert IsPlain(init) by {
        forall i | 0 <= i < |init| ensures init[i] == s[i] {}
      }
      EscapePlain(init);
      assert EscapeChar(last) == [last];
      assert s == init + [last];
    }
  }

  /** For a plain JSON string the extracted text is the string itself. */
  lemma PlainStringText(s: string)
    requires IsPlain(s)
    ensures UnquotedText(JString(s)) == s
  {
    EscapePlain(s);
    var quote := "\"";
    assert Serialize(JString(s)) == quote + (s + quote);
    assert RemoveQuotes(quote) == "" by {
      assert quote[1..] == "";
    }
    assert !('"' in s) by {
      forall i | 0 <= i < |s| ensures s[i] != '"' {}
    }
    RemoveQuotesConcat(quote, s + quote);
    RemoveQuotesConcat(s, quote);
    assert RemoveQuotes(s + quote) == s;
  }
}
