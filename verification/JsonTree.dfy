/**
 The value a cJSON item tree stands for, and the text the printer gives it.
 */
module JsonTree {
  import opened CText

  const INT_MIN := -0x8000_0000
  const INT_MAX := 0x7fff_ffff

  /** A cJSON item with its list of children. A number is its `valuedouble`. */
  datatype Json =
    | Null
    | False
    | True
    | Number(d: real)
    | String(text: cstring)
    | Array(items: seq<Json>)
    | Object(members: seq<Member>)

  datatype Member = Member(name: cstring, value: Json)

  predicate IsInt(d: real) {
    d == d.Floor as real && INT_MIN <= d.Floor <= INT_MAX
  }

  /** Every number of the tree is a C `int`. */
  predicate AllInts(v: Json) {
    match v
    case Number(d) => IsInt(d)
    case Array(items) => forall i :: 0 <= i < |items| ==> AllInts(items[i])
    case Object(ms) => forall i :: 0 <= i < |ms| ==> AllInts(ms[i].value)
    case _ => true
  }

  // ----- numbers: the text of "%d"

  function NatText(n: nat): (t: cstring)
    ensures |t| > 0
    ensures forall i :: 0 <= i < |t| ==> IsDigit(t[i])
    ensures t[0] == '0' <==> n == 0
  {
    if n < 10 then [DigitChar(n)] else NatText(n / 10) + [DigitChar(n % 10)]
  }

  function IntText(n: int): (t: cstring)
    ensures |t| > 0
    ensures t[0] == '-' || IsDigit(t[0])
  {
    if n < 0 then ['-'] + NatText(-n) else NatText(n)
  }

  // ----- strings

  function HexDigit(n: int): char
    requires 0 <= n < 16
  {
    if n < 10 then DigitChar(n) else (n - 10 + 'a' as int) as char
  }

  /** The printed form of one character of a string. */
  function EscapeChar(c: char): (t: cstring)
    requires c != '\0'
    ensures |t| > 0
  {
    if c >= ' ' && c != '\"' && c != '\\' then [c]
    else if c == '\\' then "\\\\"
    else if c == '\"' then "\\\""
    else if c == BACKSPACE then "\\b"
    else if c == FORM_FEED then "\\f"
    else if c == '\n' then "\\n"
    else if c == '\r' then "\\r"
    else if c == '\t' then "\\t"
    else "\\u00" + [HexDigit(c as int / 16), HexDigit(c as int % 16)]
  }

  function Escape(s: cstring): cstring {
    if s == [] then [] else EscapeChar(s[0]) + Escape(s[1..])
  }

  function StringText(s: cstring): cstring {
    ['\"'] + Escape(s) + ['\"']
  }

  // ----- values

  const NULL_TEXT: cstring := "null"
  const FALSE_TEXT: cstring := "false"
  const TRUE_TEXT: cstring := "true"

  /** The text of a value at nesting level `depth`, formatted when `fmt` holds. */
  function Text(v: Json, depth: nat, fmt: bool): (t: cstring)
    requires AllInts(v)
    decreases v, 1
  {
    match v
    case Null => NULL_TEXT
    case False => FALSE_TEXT
    case True => TRUE_TEXT
    case Number(d) => IntText(d.Floor)
    case String(s) => StringText(s)
    case Array(items) => ['['] + ItemsText(items, depth, fmt) + [']']
    case Object(ms) =>
      if ms == [] then
        ['{'] + Newline(fmt) + Indent(if depth == 0 then 0 else depth - 1, fmt) + ['}']
      else
        ['{'] + Newline(fmt) + MembersText(ms, depth + 1, fmt) + Indent(depth, fmt) + ['}']
  }

  /** The text of an array's entries, with the separators between them. */
  function ItemsText(items: seq<Json>, depth: nat, fmt: bool): (t: cstring)
    requires forall i :: 0 <= i < |items| ==> AllInts(items[i])
    decreases items, 0
  {
    if items == [] then []
    else if |items| == 1 then Text(items[0], depth + 1, fmt)
    else Text(items[0], depth + 1, fmt) + [','] + Gap(fmt) + ItemsText(items[1..], depth, fmt)
  }

  /** The text of an object's members; `depth` is already that of the members. */
  function MembersText(ms: seq<Member>, depth: nat, fmt: bool): (t: cstring)
    requires forall i :: 0 <= i < |ms| ==> AllInts(ms[i].value)
    decreases ms, 0
  {
    if ms == [] then []
    else
      MemberHead(ms[0].name, depth, fmt)
      + Text(ms[0].value, depth, fmt)
      + MemberTail(|ms| == 1, fmt)
      + MembersText(ms[1..], depth, fmt)
  }

  function MemberHead(name: cstring, depth: nat, fmt: bool): cstring {
    Indent(depth, fmt) + StringText(name) + [':'] + Tab(fmt)
  }

  function MemberTail(last: bool, fmt: bool): cstring {
    (if last then [] else [',']) + Newline(fmt)
  }

  // White space that only the formatted text has.

  function Indent(n: nat, fmt: bool): cstring {
    if fmt then Repeat('\t', n) else []
  }

  function Newline(fmt: bool): cstring {
    if fmt then "\n" else []
  }

  function Tab(fmt: bool): cstring {
    if fmt then "\t" else []
  }

  function Gap(fmt: bool): cstring {
    if fmt then " " else []
  }
}
