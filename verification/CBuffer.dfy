/**
 The library calls and pointer idioms with which C code fills a text buffer. Each
 one appends to what has been written so far; staying inside the buffer is checked.
 */
module CBuffer {
  import opened CText

  /** `*ptr++ = c` */
  method Put(a: array<char>, ptr: nat, ghost done: string, c: char) returns (ptr': nat)
    requires ptr == |done| < a.Length && Written(a, done)
    modifies a
    ensures ptr' == ptr + 1 && Written(a, done + [c])
  {
    a[ptr] := c;
    ptr' := ptr + 1;
  }

  /** `for (...; i < n; ...) *ptr++ = '\t'` */
  method PutTabs(a: array<char>, ptr: nat, ghost done: string, n: nat) returns (ptr': nat)
    requires ptr == |done| && ptr + n <= a.Length && Written(a, done)
    modifies a
    ensures ptr' == ptr + n && Written(a, done + Repeat('\t', n))
  {
    ptr' := ptr;
    assert done + Repeat('\t', 0) == done;
    for i := 0 to n
      invariant ptr' == ptr + i && Written(a, done + Repeat('\t', i))
    {
      ptr' := Put(a, ptr', done + Repeat('\t', i), '\t');
      RepeatSnoc('\t', i);
      assert done + Repeat('\t', i) + ['\t'] == done + Repeat('\t', i + 1);
    }
  }

  /** `strcpy` or `sprintf` at position ptr: the terminator is written too. */
  method PutText(a: array<char>, ptr: nat, ghost done: string, text: string) returns (ptr': nat)
    requires ptr == |done| && ptr + |text| < a.Length && Written(a, done)
    modifies a
    ensures ptr' == ptr + |text| && Written(a, done + text) && a[ptr'] == '\0'
  {
    ptr' := ptr;
    for i := 0 to |text|
      invariant ptr' == ptr + i && Written(a, done + text[..i])
    {
      ptr' := Put(a, ptr', done + text[..i], text[i]);
      assert done + text[..i] + [text[i]] == done + text[..i + 1];
    }
    assert text[..|text|] == text;
    a[ptr'] := '\0';
  }

  /** `strcpy` of one buffer into another. */
  method PutCopy(a: array<char>, ptr: nat, ghost done: string, src: array<char>, ghost text: cstring)
    returns (ptr': nat)
    requires a != src && Holds(src, text)
    requires ptr == |done| && ptr + |text| < a.Length && Written(a, done)
    modifies a
    ensures ptr' == ptr + |text| && Written(a, done + text) && a[ptr'] == '\0'
  {
    ptr' := ptr;
    var i := 0;
    while src[i] != '\0'
      invariant 0 <= i <= |text| && ptr' == ptr + i && Written(a, done + text[..i])
      decreases |text| - i
    {
      ptr' := Put(a, ptr', done + text[..i], src[i]);
      assert src[i] == src[..|text|][i] == text[i];
      assert done + text[..i] + [text[i]] == done + text[..i + 1];
      i := i + 1;
    }
    HoldsAt(src, text, i);
    assert text[..|text|] == text;
    a[ptr'] := '\0';
  }

  method StrLen(a: array<char>, ghost text: cstring) returns (n: nat)
    requires Holds(a, text)
    ensures n == |text|
  {
    n := 0;
    while a[n] != '\0'
      invariant n <= |text|
      decreases |text| - n
    {
      n := n + 1;
    }
    HoldsAt(a, text, n);
  }

  lemma HoldsAt(a: array<char>, text: cstring, i: nat)
    requires Holds(a, text) && i <= |text|
    ensures a[i] == '\0' <==> i == |text|
  {
    if i < |text| {
      assert a[i] == a[..|text|][i] == text[i] && text[i] in text;
    }
  }

  /** `malloc` of a copy of a string constant. */
  method StrDup(text: string) returns (a: array<char>)
    ensures fresh(a) && a.Length == |text| + 1 && Holds(a, text)
  {
    a := new char[|text| + 1];
    var end := PutText(a, 0, [], text);
    assert [] + text == text;
  }
}
