/**
 The printed text of arrays, objects and members, cut at the places where a
 reader of the text stops: brackets, separators and white space.
 */
module JsonLayout {
  import opened CText
  import opened JsonTree

  lemma Regroup(a: string, b: string, c: string, d: string, e: string)
    ensures a + b + c + d + e == a + (b + (c + (d + e)))
    ensures a + b + c + d == a + (b + (c + d))
    ensures a + (b + c) + d == a + b + (c + d)
  {
    assert a + b + c + d + e == a + (b + (c + (d + e)));
    assert a + b + c + d == a + (b + (c + d));
    assert a + (b + c) + d == a + b + (c + d);
  }

  lemma RegroupTail(a: string, b: string, c: string, d: string, e: string)
    ensures a + (b + c) + d + e == a + (b + (c + (d + e)))
  {
    assert a + (b + c) + d + e == a + (b + (c + (d + e)));
  }

  lemma RegroupEnd(a: string, b: string, c: string)
    ensures a + b + c == a + (b + c)
  {
    assert a + b + c == a + (b + c);
  }

  lemma ArrayCut(items: seq<Json>, depth: nat, fmt: bool, rest: cstring)
    requires AllInts(Array(items))
    ensures Text(Array(items), depth, fmt) + rest ==
            ['['] + (ItemsText(items, depth, fmt) + ([']'] + rest))
  {
    hide ItemsText;
    Regroup(['['], ItemsText(items, depth, fmt), [']'], rest, []);
  }

  lemma ItemsCut(items: seq<Json>, depth: nat, fmt: bool, end: cstring)
    requires |items| > 1
    requires AllInts(Array(items))
    ensures ItemsText(items, depth, fmt) + end ==
            Text(items[0], depth + 1, fmt) + ([','] + (Gap(fmt) + (ItemsText(items[1..], depth, fmt) + end)))
  {
    hide Text, Gap;
    Regroup(Text(items[0], depth + 1, fmt), [','], Gap(fmt), ItemsText(items[1..], depth, fmt), end);
  }

  lemma EmptyObjectCut(depth: nat, fmt: bool, rest: cstring)
    ensures Text(Object([]), depth, fmt) + rest ==
            ['{'] + (Newline(fmt) + (Indent(if depth == 0 then 0 else depth - 1, fmt) + (['}'] + rest)))
  {
    hide Indent, Newline;
    Regroup(['{'], Newline(fmt), Indent(if depth == 0 then 0 else depth - 1, fmt), ['}'], rest);
  }

  lemma ObjectCut(ms: seq<Member>, depth: nat, fmt: bool, rest: cstring)
    requires ms != []
    requires AllInts(Object(ms))
    ensures Text(Object(ms), depth, fmt) + rest ==
            ['{'] + (Newline(fmt) + (MembersText(ms, depth + 1, fmt) + (Indent(depth, fmt) + (['}'] + rest))))
  {
    hide MembersText, Indent, Newline;
    var open := ['{'] + Newline(fmt) + MembersText(ms, depth + 1, fmt) + Indent(depth, fmt);
    RegroupEnd(open, ['}'], rest);
    Regroup(['{'], Newline(fmt), MembersText(ms, depth + 1, fmt), Indent(depth, fmt), ['}'] + rest);
  }

  lemma LastMemberCut(ms: seq<Member>, depth: nat, fmt: bool, end: cstring)
    requires |ms| == 1
    requires AllInts(Object(ms))
    ensures MembersText(ms, depth, fmt) + end ==
            MemberHead(ms[0].name, depth, fmt) + Text(ms[0].value, depth, fmt) + (Newline(fmt) + end)
  {
    hide Text, MemberHead, Newline;
    assert MembersText(ms[1..], depth, fmt) == [];
    assert MemberTail(true, fmt) == Newline(fmt);
  }

  lemma MembersCut(ms: seq<Member>, depth: nat, fmt: bool, end: cstring)
    requires |ms| > 1
    requires AllInts(Object(ms))
    ensures MembersText(ms, depth, fmt) + end ==
            MemberHead(ms[0].name, depth, fmt) + Text(ms[0].value, depth, fmt)
            + ([','] + (Newline(fmt) + (MembersText(ms[1..], depth, fmt) + end)))
  {
    hide Text, MemberHead, Newline;
    RegroupTail(MemberHead(ms[0].name, depth, fmt) + Text(ms[0].value, depth, fmt), [','], Newline(fmt),
                MembersText(ms[1..], depth, fmt), end);
  }

  lemma MemberCut(m: Member, depth: nat, fmt: bool, tail: cstring)
    requires AllInts(m.value)
    ensures MemberHead(m.name, depth, fmt) + Text(m.value, depth, fmt) + tail ==
            Indent(depth, fmt) + (StringText(m.name) + ([':'] + (Tab(fmt) + (Text(m.value, depth, fmt) + tail))))
  {
    hide Text, StringText, Indent, Tab;
    Regroup(Indent(depth, fmt), StringText(m.name), [':'], Tab(fmt), Text(m.value, depth, fmt) + tail);
  }
}
