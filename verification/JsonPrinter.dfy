/**
 The printer as the code runs it: every text is built in two passes, the first
 computing the size that is allocated, the second filling the buffer. Each method
 is proved to write exactly the specified text, terminator included, inside the
 buffer its first pass sized, and to say how many characters stay unused.
 */
module JsonPrinter {
  import opened CBuffer
  import opened CText
  import opened JsonTree

  // ----- strings

  lemma {:induction false} EscapeSnoc(s: cstring, c: char)
    requires c != '\0'
    ensures Escape(s + [c]) == Escape(s) + EscapeChar(c)
  {
    hide EscapeChar;
    if s == [] {
      assert s + [c] == [c];
      assert Escape([c]) == EscapeChar(c) + Escape([c][1..]);
    } else {
      assert (s + [c])[1..] == s[1..] + [c];
      EscapeSnoc(s[1..], c);
      assert EscapeChar(s[0]) + (Escape(s[1..]) + EscapeChar(c)) == EscapeChar(s[0]) + Escape(s[1..]) + EscapeChar(c);
    }
  }

  lemma EscapePrefixStep(str: cstring, i: nat)
    requires i < |str|
    ensures str[i] != '\0'
    ensures Escape(str[..i + 1]) == Escape(str[..i]) + EscapeChar(str[i])
    ensures |Escape(str[..i + 1])| <= |Escape(str)|
    decreases |str| - i
  {
    hide EscapeChar;
    assert str[i] in str;
    assert str[..i + 1] == str[..i] + [str[i]];
    EscapeSnoc(str[..i], str[i]);
    if i + 1 < |str| {
      EscapePrefixStep(str, i + 1);
    } else {
      assert str[..i + 1] == str;
    }
  }

  /** The size pass: characters that need a backslash count twice, other control
      characters six times. */
  method EscapedLength(str: cstring) returns (len: nat)
    ensures len == |Escape(str)|
  {
    len := 0;
    var ptr := 0;
    while At(str, ptr) != '\0'
      invariant ptr <= |str| && len == |Escape(str[..ptr])|
      decreases |str| - ptr
    {
      EscapePrefixStep(str, ptr);
      var token := str[ptr];
      len := len + 1;
      if token in "\"\\\n\r\t" + [BACKSPACE, FORM_FEED] {
        len := len + 1;
      } else if token < ' ' {
        len := len + 5;
      }
      ptr := ptr + 1;
    }
    AtEnd(str, ptr);
  }

  lemma AtEnd(str: cstring, ptr: nat)
    requires ptr <= |str| && At(str, ptr) == '\0'
    ensures ptr == |str| && str[..ptr] == str
  {
    assert forall i :: 0 <= i < |str| ==> str[i] in str;
  }

  /** The letter behind the backslash, for a character that has one. */
  function EscapeLetter(c: char): char {
    if c == BACKSPACE then 'b'
    else if c == FORM_FEED then 'f'
    else if c == '\n' then 'n'
    else if c == '\r' then 'r'
    else if c == '\t' then 't'
    else c
  }

  /** Writes one escaped character. */
  method PutEscaped(out: array<char>, ptr2: nat, ghost done: string, token: char) returns (ptr': nat)
    requires token != '\0' && (token < ' ' || token in "\"\\")
    requires ptr2 == |done| && ptr2 + |EscapeChar(token)| < out.Length && Written(out, done)
    modifies out
    ensures ptr' == ptr2 + |EscapeChar(token)| && Written(out, done + EscapeChar(token))
  {
    ptr' := Put(out, ptr2, done, '\\');
    if token in "\"\\\n\r\t" + [BACKSPACE, FORM_FEED] {
      ptr' := Put(out, ptr', done + ['\\'], EscapeLetter(token));
      assert done + ['\\'] + [EscapeLetter(token)] == done + EscapeChar(token);
    } else {
      var hex := "u00" + [HexDigit(token as int / 16), HexDigit(token as int % 16)];
      ptr' := PutText(out, ptr', done + ['\\'], hex);
      assert done + ['\\'] + hex == done + EscapeChar(token);
    }
  }

  /** What the filling loop has written after i characters. */
  ghost function StringDone(str: cstring, i: nat): string
    requires i <= |str|
  {
    ['\"'] + Escape(str[..i])
  }

  lemma StringDoneStep(str: cstring, i: nat)
    requires i < |str|
    ensures str[i] != '\0'
    ensures StringDone(str, i + 1) == StringDone(str, i) + EscapeChar(str[i])
    ensures |StringDone(str, i + 1)| < |StringText(str)|
  {
    hide Escape, EscapeChar;
    EscapePrefixStep(str, i);
    assert ['\"'] + Escape(str[..i]) + EscapeChar(str[i]) == ['\"'] + (Escape(str[..i]) + EscapeChar(str[i]));
  }

  lemma StringDoneEnds(str: cstring)
    ensures StringDone(str, 0) == ['\"']
    ensures StringDone(str, |str|) + ['\"'] == StringText(str)
  {
    assert str[..|str|] == str;
  }

  method PrintString(str: cstring) returns (out: array<char>)
    ensures fresh(out) && Holds(out, StringText(str))
    ensures out.Length == |StringText(str)| + 1
  {
    hide StringDone, EscapeChar;
    var len := EscapedLength(str);
    out := new char[len + 3];
    var ptr := 0;
    var ptr2 := Put(out, 0, [], '\"');
    assert [] + ['\"'] == ['\"'];
    StringDoneEnds(str);
    while At(str, ptr) != '\0'
      invariant ptr <= |str| && ptr2 == |StringDone(str, ptr)| && Written(out, StringDone(str, ptr))
      decreases |str| - ptr
    {
      StringDoneStep(str, ptr);
      if str[ptr] >= ' ' && str[ptr] != '\"' && str[ptr] != '\\' {
        PlainChar(str[ptr]);
        ptr2 := Put(out, ptr2, StringDone(str, ptr), str[ptr]);
      } else {
        ptr2 := PutEscaped(out, ptr2, StringDone(str, ptr), str[ptr]);
      }
      ptr := ptr + 1;
    }
    AtEnd(str, ptr);
    ptr2 := Put(out, ptr2, StringDone(str, ptr), '\"');
    ptr2 := Put(out, ptr2, StringText(str), '\0');
    WrittenHolds(out, StringText(str));
  }

  lemma PlainChar(c: char)
    requires c >= ' ' && c != '\"' && c != '\\'
    ensures EscapeChar(c) == [c]
  {
  }

  // ----- numbers

  lemma {:induction false} NatTextLength(n: nat, limit: nat, digits: nat)
    requires n < limit && limit == Power10(digits) && digits > 0
    ensures |NatText(n)| <= digits
  {
    if n >= 10 {
      NatTextLength(n / 10, limit / 10, digits - 1);
    }
  }

  function Power10(k: nat): nat {
    if k == 0 then 1 else 10 * Power10(k - 1)
  }

  /** `"%d"` into 21 characters. */
  method PrintNumber(d: real) returns (str: array<char>)
    requires IsInt(d)
    ensures fresh(str) && str.Length == 21 && Holds(str, IntText(d.Floor))
    ensures |IntText(d.Floor)| <= 11
  {
    str := new char[21];
    assert Power10(10) == 10_000_000_000;
    NatTextLength(if d.Floor < 0 then -d.Floor else d.Floor, Power10(10), 10);
    var end := PutText(str, 0, [], IntText(d.Floor));
    assert [] + IntText(d.Floor) == IntText(d.Floor);
  }

  // ----- arrays

  lemma {:induction false} ItemsTextSnoc(items: seq<Json>, v: Json, depth: nat, fmt: bool)
    requires items != []
    requires AllInts(Array(items)) && AllInts(v)
    ensures ItemsText(items + [v], depth, fmt) ==
            ItemsText(items, depth, fmt) + [','] + Gap(fmt) + Text(v, depth + 1, fmt)
    decreases |items|
  {
    hide Text;
    var all := items + [v];
    assert all[1..] == items[1..] + [v];
    if |items| == 1 {
      assert ItemsText([v], depth, fmt) == Text(v, depth + 1, fmt);
      assert all[1..] == [v];
    } else {
      ItemsTextSnoc(items[1..], v, depth, fmt);
    }
  }

  lemma {:induction false} ItemsPrefix(items: seq<Json>, i: nat, depth: nat, fmt: bool)
    requires i <= |items|
    requires AllInts(Array(items))
    ensures |ItemsText(items[..i], depth, fmt)| <= |ItemsText(items, depth, fmt)|
    ensures 0 < i < |items| ==> |ItemsText(items[..i], depth, fmt)| + 1 + |Gap(fmt)| <= |ItemsText(items, depth, fmt)|
    decreases |items| - i
  {
    hide Text;
    if i == |items| {
      assert items[..i] == items;
    } else {
      ItemsPrefix(items, i + 1, depth, fmt);
      if i > 0 {
        assert items[..i + 1] == items[..i] + [items[i]];
        ItemsTextSnoc(items[..i], items[i], depth, fmt);
      }
    }
  }

  /** What the filling loop has written after i entries. */
  ghost function ItemsDone(items: seq<Json>, i: nat, depth: nat, fmt: bool): string
    requires i <= |items|
    requires AllInts(Array(items))
  {
    "[" + ItemsText(items[..i], depth, fmt) + (if 0 < i < |items| then [','] + Gap(fmt) else [])
  }

  lemma ItemsDoneFits(items: seq<Json>, i: nat, depth: nat, fmt: bool)
    requires i <= |items|
    requires AllInts(Array(items))
    ensures |ItemsDone(items, i, depth, fmt)| <= 1 + |ItemsText(items, depth, fmt)|
  {
    hide Text, ItemsText;
    ItemsPrefix(items, i, depth, fmt);
  }

  lemma ItemsDoneStep(items: seq<Json>, i: nat, depth: nat, fmt: bool)
    requires i < |items|
    requires AllInts(Array(items))
    ensures ItemsDone(items, i, depth, fmt) + Text(items[i], depth + 1, fmt) ==
            "[" + ItemsText(items[..i + 1], depth, fmt)
  {
    hide Text, Gap;
    var text := Text(items[i], depth + 1, fmt);
    assert items[..i + 1] == items[..i] + [items[i]];
    if i == 0 {
      assert items[..1] == [items[0]];
      assert ItemsDone(items, 0, depth, fmt) == "[";
    } else {
      ItemsTextSnoc(items[..i], items[i], depth, fmt);
      JoinedEntry(ItemsText(items[..i], depth, fmt), Gap(fmt), text);
    }
  }

  lemma JoinedEntry(before: string, gap: string, text: string)
    ensures "[" + before + ([','] + gap) + text == "[" + (before + [','] + gap + text)
  {
    assert "[" + before + ([','] + gap) + text == "[" + (before + [','] + gap + text);
  }

  /** Entry k holds the text of item k, for the first n entries. */
  ghost predicate Entries(entries: array<array?<char>>, n: nat, texts: seq<cstring>)
    reads entries, set k | 0 <= k < entries.Length && entries[k] != null :: entries[k]
  {
    && n <= entries.Length && n <= |texts|
    && (forall k :: 0 <= k < n ==> entries[k] != null && Holds(entries[k], texts[k]))
  }

  method Store(entries: array<array?<char>>, i: nat, a: array<char>, ghost texts: seq<cstring>)
    requires i < entries.Length && i < |texts|
    requires Entries(entries, i, texts) && Holds(a, texts[i])
    modifies entries
    ensures Entries(entries, i + 1, texts) && entries[i] == a
    ensures forall k :: 0 <= k < entries.Length && k != i ==> entries[k] == old(entries[k])
  {
    entries[i] := a;
  }

  ghost function ItemTexts(items: seq<Json>, depth: nat, fmt: bool): (r: seq<cstring>)
    requires AllInts(Array(items))
    ensures |r| == |items| && forall k :: 0 <= k < |r| ==> r[k] == Text(items[k], depth + 1, fmt)
  {
    seq(|items|, k requires 0 <= k < |items| => Text(items[k], depth + 1, fmt))
  }

  method PrintArray(items: seq<Json>, depth: nat, fmt: bool) returns (out: array<char>)
    requires AllInts(Array(items))
    ensures fresh(out) && Holds(out, Text(Array(items), depth, fmt))
    ensures out.Length == |Text(Array(items), depth, fmt)| + Spare(Array(items), depth, fmt)
    decreases items, 1
  {
    hide Text, ItemsText;
    if |items| == 0 {
      out := StrDup("[]");
      EmptyArrayText(depth, fmt);
    } else {
      var entries, len := PrintItems(items, depth, fmt);
      ArrayText(items, depth, fmt);
      out := new char[len];
      FillArray(out, entries, items, depth, fmt);
    }
  }

  /** First pass: prints the entries and sizes the array's text. */
  method PrintItems(items: seq<Json>, depth: nat, fmt: bool) returns (entries: array<array?<char>>, len: nat)
    requires items != []
    requires AllInts(Array(items))
    ensures fresh(entries) && entries.Length == |items| && Entries(entries, |items|, ItemTexts(items, depth, fmt))
    ensures forall k :: 0 <= k < |items| ==> fresh(entries[k])
    ensures len == |ItemsText(items, depth, fmt)| + |items| + 6 + (if fmt then 1 else 0)
    decreases items, 0
  {
    hide Text, ItemsText;
    var n := |items|;
    ghost var texts := ItemTexts(items, depth, fmt);
    entries := new array?<char>[n](_ => null);
    len := 5;
    var i := 0;
    while i < n
      invariant 0 <= i <= n && Entries(entries, i, texts)
      invariant forall k :: 0 <= k < i ==> fresh(entries[k])
      invariant len == 5 + (if i == 0 then 0 else |ItemsText(items[..i], depth, fmt)| + i + 1 + (if fmt then 1 else 0))
    {
      var ret := PrintValue(items[i], depth + 1, fmt);
      Store(entries, i, ret, texts);
      var size := StrLen(ret, texts[i]);
      len := len + size + 2 + (if fmt then 1 else 0);
      ItemsTextLength(items, i, depth, fmt);
      i := i + 1;
    }
    assert items[..n] == items;
  }

  lemma ItemsTextLength(items: seq<Json>, i: nat, depth: nat, fmt: bool)
    requires i < |items|
    requires AllInts(Array(items))
    ensures |ItemsText(items[..i + 1], depth, fmt)| ==
            |Text(items[i], depth + 1, fmt)|
            + (if i == 0 then 0 else |ItemsText(items[..i], depth, fmt)| + (if fmt then 2 else 1))
  {
    hide Text;
    assert items[..i + 1] == items[..i] + [items[i]];
    if i == 0 {
      assert items[..1] == [items[0]];
    } else {
      ItemsTextSnoc(items[..i], items[i], depth, fmt);
    }
  }

  /** Second pass: composes the array's text. */
  method FillArray(out: array<char>, entries: array<array?<char>>, items: seq<Json>, depth: nat, fmt: bool)
    requires items != []
    requires AllInts(Array(items))
    requires entries.Length == |items| && Entries(entries, |items|, ItemTexts(items, depth, fmt))
    requires forall k :: 0 <= k < |items| ==> entries[k] != out
    requires |ItemsText(items, depth, fmt)| + 3 <= out.Length
    modifies out
    ensures Holds(out, Text(Array(items), depth, fmt))
  {
    hide Text, ItemsText;
    var n := |items|;
    ghost var texts := ItemTexts(items, depth, fmt);
    out[0] := '[';
    var ptr := 1;
    EmptyItems(items, depth, fmt);
    var i := 0;
    while i < n
      invariant 0 <= i <= n && Entries(entries, n, texts)
      invariant Written(out, ItemsDone(items, i, depth, fmt)) && ptr == |ItemsDone(items, i, depth, fmt)|
    {
      ItemsDoneStep(items, i, depth, fmt);
      ItemsDoneFits(items, i + 1, depth, fmt);
      ghost var done := ItemsDone(items, i, depth, fmt) + texts[i];
      ghost var next := ItemsDone(items, i + 1, depth, fmt);
      assert next == done + (if i + 1 < n then [','] + Gap(fmt) else []);
      ptr := PutCopy(out, ptr, ItemsDone(items, i, depth, fmt), entries[i], texts[i]);
      if i != n - 1 {
        ptr := Put(out, ptr, done, ',');
        if fmt {
          ptr := Put(out, ptr, done + [','], ' ');
        }
        assert next == if fmt then done + [','] + [' '] else done + [','];
      }
      i := i + 1;
    }
    ArrayText(items, depth, fmt);
    ptr := Put(out, ptr, ItemsDone(items, n, depth, fmt), ']');
    ptr := Put(out, ptr, Text(Array(items), depth, fmt), '\0');
    WrittenHolds(out, Text(Array(items), depth, fmt));
  }

  lemma WrittenHolds(out: array<char>, text: string)
    requires Written(out, text + ['\0'])
    ensures Holds(out, text)
  {
    assert out[..|text|] == out[..|text| + 1][..|text|] == text;
    assert out[|text|] == out[..|text| + 1][|text|];
  }

  lemma EmptyArrayText(depth: nat, fmt: bool)
    ensures Text(Array([]), depth, fmt) == "[]"
  {
  }

  lemma EmptyItems(items: seq<Json>, depth: nat, fmt: bool)
    requires AllInts(Array(items))
    ensures ItemsText(items[..0], depth, fmt) == []
  {
  }

  lemma ArrayText(items: seq<Json>, depth: nat, fmt: bool)
    requires AllInts(Array(items))
    ensures Text(Array(items), depth, fmt) == ItemsDone(items, |items|, depth, fmt) + "]"
    ensures |Text(Array(items), depth, fmt)| == |ItemsText(items, depth, fmt)| + 2
  {
    assert items[..|items|] == items;
  }

  // ----- objects

  /** One member with what follows it; a last member has no comma. */
  ghost function MemberText(m: Member, depth: nat, fmt: bool, last: bool): cstring
    requires AllInts(m.value)
  {
    MemberHead(m.name, depth, fmt) + Text(m.value, depth, fmt) + MemberTail(last, fmt)
  }

  /** The text of members of which none is the last. */
  ghost function RunText(ms: seq<Member>, depth: nat, fmt: bool): cstring
    requires AllInts(Object(ms))
  {
    if ms == [] then [] else MemberText(ms[0], depth, fmt, false) + RunText(ms[1..], depth, fmt)
  }

  lemma {:induction false} RunTextSnoc(ms: seq<Member>, m: Member, depth: nat, fmt: bool)
    requires AllInts(Object(ms)) && AllInts(m.value)
    ensures RunText(ms + [m], depth, fmt) == RunText(ms, depth, fmt) + MemberText(m, depth, fmt, false)
    ensures MembersText(ms + [m], depth, fmt) == RunText(ms, depth, fmt) + MemberText(m, depth, fmt, true)
  {
    hide Text, MemberHead, MemberTail;
    var all := ms + [m];
    if ms == [] {
      assert all == [m];
      assert all[1..] == [];
      assert MembersText([], depth, fmt) == [] && RunText([], depth, fmt) == [];
      assert MemberText(m, depth, fmt, true) + [] == MemberText(m, depth, fmt, true);
      assert MemberText(m, depth, fmt, false) + [] == MemberText(m, depth, fmt, false);
      assert [] + MemberText(m, depth, fmt, true) == MemberText(m, depth, fmt, true);
      assert [] + MemberText(m, depth, fmt, false) == MemberText(m, depth, fmt, false);
    } else {
      RunTextSnoc(ms[1..], m, depth, fmt);
      assert all[0] == ms[0] && all[1..] == ms[1..] + [m];
      var first := MemberText(ms[0], depth, fmt, false);
      Reassociate(first, RunText(ms[1..], depth, fmt), MemberText(m, depth, fmt, false));
      Reassociate(first, RunText(ms[1..], depth, fmt), MemberText(m, depth, fmt, true));
    }
  }

  lemma Reassociate(a: string, b: string, c: string)
    ensures a + (b + c) == a + b + c
  {
    assert a + (b + c) == a + b + c;
  }

  /** What the filling loop has written after i members. */
  ghost function MembersDone(ms: seq<Member>, i: nat, depth: nat, fmt: bool): string
    requires i <= |ms|
    requires AllInts(Object(ms))
  {
    "{" + Newline(fmt) + (if i < |ms| then RunText(ms[..i], depth, fmt) else MembersText(ms, depth, fmt))
  }

  lemma MembersDoneStep(ms: seq<Member>, i: nat, depth: nat, fmt: bool)
    requires i < |ms|
    requires AllInts(Object(ms))
    ensures MembersDone(ms, i + 1, depth, fmt) ==
            MembersDone(ms, i, depth, fmt) + MemberText(ms[i], depth, fmt, i + 1 == |ms|)
  {
    hide Text, RunText, MembersText, MemberText, Newline;
    RunTextSnoc(ms[..i], ms[i], depth, fmt);
    assert ms[..i + 1] == ms[..i] + [ms[i]];
    assert i + 1 == |ms| ==> ms[..i + 1] == ms;
    Reassociate("{" + Newline(fmt), RunText(ms[..i], depth, fmt), MemberText(ms[i], depth, fmt, i + 1 == |ms|));
  }

  lemma RunTextLength(ms: seq<Member>, i: nat, depth: nat, fmt: bool)
    requires i < |ms|
    requires AllInts(Object(ms))
    ensures |RunText(ms[..i + 1], depth, fmt)| ==
            |RunText(ms[..i], depth, fmt)| + |StringText(ms[i].name)| + |Text(ms[i].value, depth, fmt)|
            + 2 + (if fmt then 2 + depth else 0)
  {
    hide Text, RunText, StringText;
    assert ms[..i + 1] == ms[..i] + [ms[i]];
    RunTextSnoc(ms[..i], ms[i], depth, fmt);
  }

  lemma {:induction false} MembersDoneFits(ms: seq<Member>, i: nat, depth: nat, fmt: bool)
    requires i <= |ms|
    requires AllInts(Object(ms))
    ensures |MembersDone(ms, i, depth, fmt)| <= |MembersDone(ms, |ms|, depth, fmt)|
    decreases |ms| - i
  {
    hide MembersDone;
    if i < |ms| {
      MembersDoneStep(ms, i, depth, fmt);
      MembersDoneFits(ms, i + 1, depth, fmt);
    }
  }

  lemma ObjectText(ms: seq<Member>, depth: nat, fmt: bool)
    requires ms != []
    requires AllInts(Object(ms))
    ensures Text(Object(ms), depth, fmt) == MembersDone(ms, |ms|, depth + 1, fmt) + Indent(depth, fmt) + "}"
    ensures |Text(Object(ms), depth, fmt)| == 1 + (if fmt then depth + 1 else 0) + |RunText(ms, depth + 1, fmt)|
  {
    hide Text, MembersText, RunText, MemberHead;
    var n := |ms| - 1;
    assert ms == ms[..n] + [ms[n]];
    RunTextSnoc(ms[..n], ms[n], depth + 1, fmt);
    ObjectTextDefinition(ms, depth, fmt);
  }

  lemma ObjectTextDefinition(ms: seq<Member>, depth: nat, fmt: bool)
    requires ms != []
    requires AllInts(Object(ms))
    ensures Text(Object(ms), depth, fmt) ==
            "{" + Newline(fmt) + MembersText(ms, depth + 1, fmt) + Indent(depth, fmt) + "}"
  {
    hide MembersText;
  }

  lemma EmptyObjectText(depth: nat, fmt: bool)
    ensures Text(Object([]), depth, fmt) == "{" + Newline(fmt) + Indent(if depth == 0 then 0 else depth - 1, fmt) + "}"
  {
  }

  ghost function ValueTexts(ms: seq<Member>, depth: nat, fmt: bool): (r: seq<cstring>)
    requires AllInts(Object(ms))
    ensures |r| == |ms| && forall k :: 0 <= k < |r| ==> r[k] == Text(ms[k].value, depth, fmt)
  {
    seq(|ms|, k requires 0 <= k < |ms| => Text(ms[k].value, depth, fmt))
  }

  ghost function NameTexts(ms: seq<Member>): (r: seq<cstring>)
    ensures |r| == |ms| && forall k :: 0 <= k < |r| ==> r[k] == StringText(ms[k].name)
  {
    seq(|ms|, k requires 0 <= k < |ms| => StringText(ms[k].name))
  }

  method PrintEmptyObject(depth: nat, fmt: bool) returns (out: array<char>)
    ensures fresh(out) && Holds(out, Text(Object([]), depth, fmt))
    ensures out.Length == |Text(Object([]), depth, fmt)| + Spare(Object([]), depth, fmt)
  {
    EmptyObjectText(depth, fmt);
    out := new char[if fmt then depth + 4 else 3];
    var ptr := Put(out, 0, [], '{');
    ghost var done := [] + ['{'];
    if fmt {
      ptr := Put(out, ptr, done, '\n');
      var n := if depth - 1 < 0 then 0 else depth - 1;
      ptr := PutTabs(out, ptr, done + ['\n'], n);
      done := done + ['\n'] + Repeat('\t', n);
    }
    assert done == "{" + Newline(fmt) + Indent(if depth == 0 then 0 else depth - 1, fmt);
    ptr := Put(out, ptr, done, '}');
    ptr := Put(out, ptr, done + ['}'], '\0');
    WrittenHolds(out, done + ['}']);
  }

  method PrintObject(ms: seq<Member>, depth: nat, fmt: bool) returns (out: array<char>)
    requires AllInts(Object(ms))
    ensures fresh(out) && Holds(out, Text(Object(ms), depth, fmt))
    ensures out.Length == |Text(Object(ms), depth, fmt)| + Spare(Object(ms), depth, fmt)
    decreases ms, 1
  {
    hide Text, MembersText;
    if |ms| == 0 {
      out := PrintEmptyObject(depth, fmt);
    } else {
      var names, entries, len := PrintMembers(ms, depth + 1, fmt);
      ObjectText(ms, depth, fmt);
      out := new char[len];
      FillObject(out, names, entries, ms, depth, fmt);
    }
  }

  lemma NoEntries(entries: array<array?<char>>, texts: seq<cstring>)
    ensures Entries(entries, 0, texts)
  {
  }

  /** First pass: prints names and values and sizes the object's text. */
  method PrintMembers(ms: seq<Member>, depth: nat, fmt: bool)
    returns (names: array<array?<char>>, entries: array<array?<char>>, len: nat)
    requires ms != []
    requires AllInts(Object(ms))
    ensures fresh(names) && names.Length == |ms| && Entries(names, |ms|, NameTexts(ms))
    ensures fresh(entries) && entries.Length == |ms| && Entries(entries, |ms|, ValueTexts(ms, depth, fmt))
    ensures forall k :: 0 <= k < |ms| ==> fresh(names[k]) && fresh(entries[k])
    ensures len == 7 + (if fmt then depth else 0) + |RunText(ms, depth, fmt)|
    decreases ms, 0
  {
    hide Text, RunText, StringText, Entries;
    var n := |ms|;
    ghost var values, keys := ValueTexts(ms, depth, fmt), NameTexts(ms);
    entries := new array?<char>[n](_ => null);
    names := new array?<char>[n](_ => null);
    len := 7 + (if fmt then depth else 0);
    var i := 0;
    NoMembers(ms, depth, fmt);
    NoEntries(names, keys);
    NoEntries(entries, values);
    while i < n
      invariant 0 <= i <= n && Entries(names, i, keys) && Entries(entries, i, values)
      invariant forall k :: 0 <= k < i ==> fresh(names[k]) && fresh(entries[k])
      invariant len == 7 + (if fmt then depth else 0) + |RunText(ms[..i], depth, fmt)|
    {
      var size := PrintMember(ms[i], i, names, entries, keys, values, depth, fmt);
      len := len + size;
      RunTextLength(ms, i, depth, fmt);
      i := i + 1;
    }
    assert ms[..n] == ms;
  }

  /** Prints one name and value into entry i of both arrays. */
  method PrintMember(m: Member, i: nat, names: array<array?<char>>, entries: array<array?<char>>,
                     ghost keys: seq<cstring>, ghost values: seq<cstring>, depth: nat, fmt: bool) returns (size: nat)
    requires AllInts(m.value)
    requires names != entries && Entries(names, i, keys) && Entries(entries, i, values)
    requires i < names.Length && i < |keys| && keys[i] == StringText(m.name)
    requires i < entries.Length && i < |values| && values[i] == Text(m.value, depth, fmt)
    modifies names, entries
    ensures Entries(names, i + 1, keys) && Entries(entries, i + 1, values)
    ensures fresh(names[i]) && fresh(entries[i])
    ensures forall k :: 0 <= k < i ==> names[k] == old(names[k]) && entries[k] == old(entries[k])
    ensures size == |Text(m.value, depth, fmt)| + |StringText(m.name)| + 2 + (if fmt then 2 + depth else 0)
    decreases m
  {
    hide Text, StringText;
    var str := PrintString(m.name);
    var ret := PrintValue(m.value, depth, fmt);
    Store(names, i, str, keys);
    Store(entries, i, ret, values);
    var retSize := StrLen(ret, values[i]);
    var strSize := StrLen(str, keys[i]);
    size := retSize + strSize + 2 + (if fmt then 2 + depth else 0);
  }

  lemma NoMembers(ms: seq<Member>, depth: nat, fmt: bool)
    requires AllInts(Object(ms))
    ensures RunText(ms[..0], depth, fmt) == []
  {
  }

  lemma HeadText(done: string, key: cstring, depth: nat, fmt: bool)
    ensures done + MemberHead(key, depth, fmt) == done + Indent(depth, fmt) + StringText(key) + [':'] + Tab(fmt)
    ensures |MemberHead(key, depth, fmt)| == |Indent(depth, fmt)| + |StringText(key)| + 1 + |Tab(fmt)|
  {
    hide StringText, Indent, Tab;
  }

  /** Writes the tabs, the name, the colon and the tab of a member. */
  method PutHead(out: array<char>, ptr: nat, ghost done: string, name: array<char>, ghost key: cstring,
                 depth: nat, fmt: bool) returns (ptr': nat)
    requires out != name && Holds(name, StringText(key))
    requires ptr == |done| && Written(out, done) && ptr + |MemberHead(key, depth, fmt)| < out.Length
    modifies out
    ensures ptr' == ptr + |MemberHead(key, depth, fmt)| && Written(out, done + MemberHead(key, depth, fmt))
  {
    hide StringText, MemberHead;
    ptr' := ptr;
    HeadText(done, key, depth, fmt);
    if fmt {
      ptr' := PutTabs(out, ptr', done, depth);
    } else {
      assert done + [] == done;
    }
    ghost var d := done + Indent(depth, fmt);
    ptr' := PutCopy(out, ptr', d, name, StringText(key));
    ptr' := Put(out, ptr', d + StringText(key), ':');
    if fmt {
      ptr' := Put(out, ptr', d + StringText(key) + [':'], '\t');
    }
    assert !fmt ==> d + StringText(key) + [':'] + [] == d + StringText(key) + [':'];
  }

  /** Writes what follows a member's value. */
  method PutTail(out: array<char>, ptr: nat, ghost done: string, fmt: bool, last: bool) returns (ptr': nat)
    requires ptr == |done| && Written(out, done) && ptr + |MemberTail(last, fmt)| < out.Length
    modifies out
    ensures ptr' == ptr + |MemberTail(last, fmt)| && Written(out, done + MemberTail(last, fmt))
  {
    ptr' := ptr;
    if !last {
      ptr' := Put(out, ptr', done, ',');
    }
    ghost var d := if last then done else done + [','];
    if fmt {
      ptr' := Put(out, ptr', d, '\n');
    }
    assert done + MemberTail(last, fmt) == if fmt then d + ['\n'] else d;
    out[ptr'] := '\0';
  }

  /** Writes one member behind what has been written. */
  method PutMember(out: array<char>, ptr: nat, ghost done: string, name: array<char>, entry: array<char>,
                   ghost m: Member, depth: nat, fmt: bool, last: bool) returns (ptr': nat)
    requires AllInts(m.value)
    requires out != name && out != entry
    requires Holds(name, StringText(m.name)) && Holds(entry, Text(m.value, depth, fmt))
    requires ptr == |done| && Written(out, done) && ptr + |MemberText(m, depth, fmt, last)| < out.Length
    modifies out
    ensures ptr' == ptr + |MemberText(m, depth, fmt, last)|
    ensures Written(out, done + MemberText(m, depth, fmt, last))
  {
    hide Text, MemberHead, MemberTail;
    ghost var head, text := MemberHead(m.name, depth, fmt), Text(m.value, depth, fmt);
    ptr' := PutHead(out, ptr, done, name, m.name, depth, fmt);
    ptr' := PutCopy(out, ptr', done + head, entry, text);
    ptr' := PutTail(out, ptr', done + head + text, fmt, last);
    Reassociate(done, head, text);
    Reassociate(done, head + text, MemberTail(last, fmt));
  }

  /** The loop over the members, behind the opening brace. */
  method FillMembers(out: array<char>, at: nat, names: array<array?<char>>, entries: array<array?<char>>,
                     ms: seq<Member>, depth: nat, fmt: bool) returns (ptr: nat)
    requires AllInts(Object(ms)) && ms != []
    requires names.Length == |ms| && Entries(names, |ms|, NameTexts(ms))
    requires entries.Length == |ms| && Entries(entries, |ms|, ValueTexts(ms, depth, fmt))
    requires forall k :: 0 <= k < |ms| ==> names[k] != out && entries[k] != out
    requires Written(out, MembersDone(ms, 0, depth, fmt)) && at == |MembersDone(ms, 0, depth, fmt)|
    requires |MembersDone(ms, |ms|, depth, fmt)| < out.Length
    modifies out
    ensures Written(out, MembersDone(ms, |ms|, depth, fmt)) && ptr == |MembersDone(ms, |ms|, depth, fmt)|
  {
    hide Text, MembersDone, MemberText;
    ptr := at;
    var i := 0;
    while i < |ms|
      invariant 0 <= i <= |ms| && Entries(names, |ms|, NameTexts(ms))
                && Entries(entries, |ms|, ValueTexts(ms, depth, fmt))
      invariant Written(out, MembersDone(ms, i, depth, fmt)) && ptr == |MembersDone(ms, i, depth, fmt)|
    {
      MembersDoneStep(ms, i, depth, fmt);
      MembersDoneFits(ms, i + 1, depth, fmt);
      ptr := PutMember(out, ptr, MembersDone(ms, i, depth, fmt), names[i], entries[i], ms[i], depth, fmt,
                       i == |ms| - 1);
      i := i + 1;
    }
  }

  method OpenObject(out: array<char>, ghost ms: seq<Member>, depth: nat, fmt: bool) returns (ptr: nat)
    requires ms != [] && AllInts(Object(ms)) && out.Length > 1
    modifies out
    ensures Written(out, MembersDone(ms, 0, depth, fmt)) && ptr == |MembersDone(ms, 0, depth, fmt)|
  {
    hide Text, MembersDone;
    out[0] := '{';
    ptr := 1;
    if fmt {
      out[1] := '\n';
      ptr := 2;
    }
    NothingDone(out, ms, depth, fmt);
  }

  /** Second pass: composes the object's text. */
  method FillObject(out: array<char>, names: array<array?<char>>, entries: array<array?<char>>,
                    ms: seq<Member>, depth: nat, fmt: bool)
    requires ms != []
    requires AllInts(Object(ms))
    requires names.Length == |ms| && Entries(names, |ms|, NameTexts(ms))
    requires entries.Length == |ms| && Entries(entries, |ms|, ValueTexts(ms, depth + 1, fmt))
    requires forall k :: 0 <= k < |ms| ==> names[k] != out && entries[k] != out
    requires |Text(Object(ms), depth, fmt)| < out.Length
    modifies out
    ensures Holds(out, Text(Object(ms), depth, fmt))
  {
    hide Text, MembersDone, MemberText, Written, Indent;
    ObjectText(ms, depth, fmt);
    var ptr := OpenObject(out, ms, depth + 1, fmt);
    ptr := FillMembers(out, ptr, names, entries, ms, depth + 1, fmt);
    CloseObject(out, ptr, MembersDone(ms, |ms|, depth + 1, fmt), Text(Object(ms), depth, fmt), depth, fmt);
  }

  /** The tabs, the brace and the terminator at the end. */
  method CloseObject(out: array<char>, at: nat, ghost done: string, ghost text: string, depth: nat, fmt: bool)
    requires text == done + Indent(depth, fmt) + "}" && at == |done| && |text| < out.Length && Written(out, done)
    modifies out
    ensures Holds(out, text)
  {
    var ptr := at;
    if fmt {
      ptr := PutTabs(out, ptr, done, depth);
    }
    assert !fmt ==> done + Indent(depth, fmt) == done;
    ptr := Put(out, ptr, done + Indent(depth, fmt), '}');
    ptr := Put(out, ptr, text, '\0');
    WrittenHolds(out, text);
  }

  lemma NothingDone(out: array<char>, ms: seq<Member>, depth: nat, fmt: bool)
    requires ms != []
    requires AllInts(Object(ms))
    requires out.Length > 1 && out[0] == '{' && (fmt ==> out[1] == '\n')
    ensures Written(out, MembersDone(ms, 0, depth, fmt))
    ensures |MembersDone(ms, 0, depth, fmt)| == if fmt then 2 else 1
  {
    NoMembers(ms, depth, fmt);
  }

  // ----- values

  /** By how much the allocated size exceeds the length of the text. */
  function Spare(v: Json, depth: nat, fmt: bool): int
    requires v.Number? ==> IsInt(v.d)
  {
    match v
    case Number(d) => 21 - |IntText(d.Floor)|
    case Array(items) => if items == [] then 1 else |items| + 4 + (if fmt then 1 else 0)
    case Object(ms) => if ms != [] then 6 else if fmt && depth == 0 then 1 else if fmt then 2 else 1
    case _ => 1
  }

  /** Prints any tree of int numbers: the buffer holds exactly the specified text,
      and exceeds it by the spare room of the top value's kind. */
  method PrintValue(item: Json, depth: nat, fmt: bool) returns (out: array<char>)
    requires AllInts(item)
    ensures fresh(out) && Holds(out, Text(item, depth, fmt))
    ensures out.Length == |Text(item, depth, fmt)| + Spare(item, depth, fmt)
    decreases item, 2
  {
    match item
    case Null => out := StrDup(NULL_TEXT);
    case False => out := StrDup(FALSE_TEXT);
    case True => out := StrDup(TRUE_TEXT);
    case Number(d) => out := PrintNumber(d);
    case String(s) => out := PrintString(s);
    case Array(items) => out := PrintArray(items, depth, fmt);
    case Object(ms) => out := PrintObject(ms, depth, fmt);
  }
}
