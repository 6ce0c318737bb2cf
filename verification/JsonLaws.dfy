/**
 The laws of the JSON library on its code: the methods composed the way callers
 compose them.
 */
module JsonLaws {
  import opened CText
  import opened JsonTree
  import JsonParse
  import JsonPrinter
  import JsonReader
  import JsonMinify
  import JsonRoundTrip

  /** Printing a tree and parsing the printed buffer gives the tree back. */
  method PrintThenRead(v: Json, fmt: bool) returns (text: array<char>, back: JsonReader.Read<Json>)
    requires AllInts(v)
    ensures Holds(text, Text(v, 0, fmt))
    ensures back == JsonReader.Got(v, |Text(v, 0, fmt)|)
  {
    text := JsonPrinter.PrintValue(v, 0, fmt);
    JsonRoundTrip.PrintThenParse(v, fmt, true);
    var read := Contents(text, Text(v, 0, fmt));
    back := JsonReader.ReadJson(read, true);
  }

  /** The C string a buffer holds. */
  method Contents(a: array<char>, ghost text: cstring) returns (s: cstring)
    requires Holds(a, text)
    ensures s == text
  {
    s := [];
    while a[|s|] != '\0'
      invariant |s| <= |text| && s == text[..|s|]
      decreases |text| - |s|
    {
      assert a[|s|] == a[..|text|][|s|] == text[|s|];
      s := s + [a[|s|]];
    }
    assert forall i :: 0 <= i < |text| ==> text[i] in text && a[i] == a[..|text|][i];
    assert text[..|text|] == text;
  }

  /** Minifying a formatted print in its own buffer leaves the unformatted print
      there, and parsing that gives the same tree. */
  method PrintMinifyRead(v: Json) returns (text: array<char>, back: JsonReader.Read<Json>)
    requires AllInts(v)
    ensures Holds(text, Text(v, 0, false))
    ensures back == JsonReader.Got(v, |Text(v, 0, false)|)
  {
    text := JsonPrinter.PrintValue(v, 0, true);
    ghost var printed := Text(v, 0, true);
    assert forall i :: 0 <= i < |printed| ==> text[0 + i] == text[..|printed|][i];
    JsonMinify.MinifyText(v, true);
    JsonMinify.MinifyInPlace(text, printed);
    JsonRoundTrip.PrintThenParse(v, false, true);
    var read := Contents(text, Text(v, 0, false));
    back := JsonReader.ReadJson(read, true);
  }
}
