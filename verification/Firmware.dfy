/**
 Firmware packages: the tool that puts the files of an update script one after the
 other, with the script at the end, and the gateway's updateV2, which takes them
 apart again.
 */
module Firmware {
  import opened CText
  import opened FirmwareText

  /** file contents */
  type bytes = string

  const SCRIPT_LEN: nat := 1024
  const SCRIPT_KEYWORD: string := "---Gateway FW Update Script---"
  const OUTPUT_FILENAME: string := "ceres"
  const MAIN_FILENAME: string := "ceres2"
  const UPDATE: string := "update:"
  const COPY: string := "copy:"

  // ----- the package tool

  /** The main program is packaged under another name. */
  function Source(name: string): string {
    if name == OUTPUT_FILENAME then MAIN_FILENAME else name
  }

  function Content(files: map<string, bytes>, name: string): bytes {
    if name != "" && Source(name) in files then files[Source(name)] else ""
  }

  /** The package so far, with the size that the last successful stat left; a file
      whose size is not that of the script; a line without a comma after its name,
      on which the tool fails. */
  datatype Packing = Packed(out: bytes, size: int) | SizeError | Crash

  /** Where the name in an update line starts: behind the last slash, or else behind
      the first colon. */
  function NameStart(line: string): int {
    var slash := StrRChr(line, '/', |line|);
    if slash >= 0 then slash else StrChr(line, ':', 0)
  }

  /** The name from the character behind c1 up to the next comma, and where that comma
      is; a name of fewer than two characters is dropped. */
  function NameIn(line: string, c1: int): (r: (string, int))
    requires -1 <= c1 < |line|
    ensures -1 <= r.1 < |line|
  {
    var c2 := if c1 >= 0 then StrChr(line, ',', c1) else -1;
    (if c2 - c1 > 2 then line[c1 + 1..c2] else "", c2)
  }

  function PackUpdate(line: string, files: map<string, bytes>, p: Packing): Packing
    requires p.Packed?
  {
    var (name, comma) := NameIn(line, NameStart(line));
    if comma < 0 then Crash
    else
      var size := if Source(name) in files then |files[Source(name)]| else p.size;
      if size != Atoi(line, comma + 1) then SizeError else Packed(p.out + Content(files, name), size)
  }

  function PackCopy(line: string, files: map<string, bytes>, p: Packing): Packing
    requires p.Packed?
  {
    p.(out := p.out + Content(files, NameIn(line, StrChr(line, ':', 0)).0))
  }

  function PackLine(line: string, files: map<string, bytes>, p: Packing): Packing
    requires p.Packed?
  {
    if Contains(line, UPDATE, 0) then PackUpdate(line, files, p)
    else if Contains(line, COPY, 0) then PackCopy(line, files, p)
    else p
  }

  function PackLines(lines: seq<string>, files: map<string, bytes>, p: Packing): Packing {
    if lines == [] || !p.Packed? then p else PackLines(lines[1..], files, PackLine(lines[0], files, p))
  }

  function Nuls(n: nat): (r: string)
    ensures |r| == n
  {
    seq(n, _ => '\0')
  }

  datatype Package = Package(file: bytes) | NoKeyword | Failed

  function MakePackage(script: string, files: map<string, bytes>, size: int): Package
    requires |script| < SCRIPT_LEN
  {
    if !StartsWith(script, SCRIPT_KEYWORD) then NoKeyword
    else
      var p := PackLines(Lines(script, 0), files, Packed("", size));
      if p.Packed? then Package(p.out + script + Nuls(SCRIPT_LEN - |script|)) else Failed
  }

  /** The packaging half of main. `size` is what the stat buffer holds at first. */
  method PackageTool(script: string, files: map<string, bytes>, size: int) returns (r: Package)
    requires |script| < SCRIPT_LEN && '\0' !in script
    ensures r == MakePackage(script, files, size)
  {
    if !StartsWith(script, SCRIPT_KEYWORD) {
      return NoKeyword;
    }
    var output: bytes := "";
    var st := size;
    var found, line, next := StrTok(script, 0);
    while found
      invariant next <= |script|
      invariant PackLines(Lines(script, 0), files, Packed("", size)) ==
                PackLines((if found then [line] else []) + Lines(script, next), files, Packed(output, st))
      invariant !found ==> Lines(script, next) == []
      decreases |script| - next, found
    {
      ghost var lines := [line] + Lines(script, next);
      assert lines[0] == line && lines[1..] == Lines(script, next);
      var p := PackOne(line, files, output, st);
      if !p.Packed? {
        return Failed;
      }
      output, st := p.out, p.size;
      found, line, next := StrTok(script, next);
      assert found ==> lines[1..] == [line] + Lines(script, next);
      assert !found ==> lines[1..] == [] + Lines(script, next);
    }
    assert [] + Lines(script, next) == [];
    r := Package(output + script + Nuls(SCRIPT_LEN - |script|));
  }

  method FindName(line: string, c1: int) returns (filename: string, c2: int)
    requires -1 <= c1 < |line|
    ensures (filename, c2) == NameIn(line, c1)
  {
    filename, c2 := "", -1;
    if c1 >= 0 {
      c2 := StrChr(line, ',', c1);
    }
    if c1 >= 0 && c2 >= 0 {
      if c2 - c1 > 2 {
        filename := line[c1 + 1..c2];
      }
    }
  }

  /** The cat command. */
  method Concatenate(filename: string, files: map<string, bytes>, output: bytes) returns (out: bytes)
    ensures out == output + Content(files, filename)
  {
    out := output;
    assert OUTPUT_FILENAME + "2" == MAIN_FILENAME;
    if |filename| > 0 {
      var cat := if filename == OUTPUT_FILENAME then filename + "2" else filename;
      if cat in files {
        out := out + files[cat];
      }
    }
  }

  method PackOne(line: string, files: map<string, bytes>, output: bytes, st: int) returns (p: Packing)
    ensures p == PackLine(line, files, Packed(output, st))
  {
    hide Atoi, Contains, StrChr, StrRChr, NameIn;
    assert output + "" == output;
    var filename := "";
    var size := st;
    if Contains(line, UPDATE, 0) {
      var c1 := StrRChr(line, '/', |line|);
      if c1 < 0 {
        c1 := StrChr(line, ':', 0);
      }
      var c2;
      filename, c2 := FindName(line, c1);
      if c2 < 0 {
        return Crash;
      }
      var stat := if filename == OUTPUT_FILENAME then MAIN_FILENAME else filename;
      if stat in files {
        size := |files[stat]|;
      }
      if size != Atoi(line, c2 + 1) {
        return SizeError;
      }
    } else if Contains(line, COPY, 0) {
      var c1, c2 := StrChr(line, ':', 0), -1;
      filename, c2 := FindName(line, c1);
    }
    var out := Concatenate(filename, files, output);
    p := Packed(out, size);
  }

  // ----- updateV2

  /** A file that is written: its path, its name and its data. */
  datatype Extracted = Extracted(path: string, name: string, data: bytes)

  /** Reading `size` bytes from position `at`; at the end of the file the last byte is
      read again and again. */
  function ReadBytes(file: bytes, at: nat, size: nat): (r: bytes)
    requires file != "" && at <= |file|
    ensures |r| == size
  {
    seq(size, i requires 0 <= i < size => file[if at + i < |file| then at + i else |file| - 1])
  }

  function Advance(file: bytes, at: nat, size: nat): (r: nat)
    requires at <= |file|
    ensures r <= |file|
  {
    if at + size <= |file| then at + size else |file|
  }

  /** Path, name and size of an update line, as the gateway reads them. */
  function Entry(line: string, c3: nat): (string, string, int)
    requires c3 < |line| && line[..c3] == "update" && line[c3] == ':'
  {
    var c4 := StrRChr(line, '/', |line|);
    if c4 >= 0 then
      NoSlashBefore(line, c3, c4);
      var c5 := StrChr(line, ',', c4);
      if c5 >= 0 then (line[c3 + 1..c4], line[c4 + 1..c5], Atoi(line, c5 + 1)) else (line[c3 + 1..c4], "", 0)
    else
      var c5 := StrRChr(line, ',', |line|);
      if c5 >= 0 then
        NoCommaBefore(line, c3, c5);
        ("", line[c3 + 1..c5], Atoi(line, c5 + 1))
      else ("", "", 0)
  }

  lemma NoSlashBefore(line: string, c3: nat, c4: nat)
    requires c3 < |line| && line[..c3] == "update" && c4 < |line| && line[c4] == '/' && line[c3] == ':'
    ensures c3 < c4
  {
    assert forall i :: 0 <= i < c3 ==> line[i] == line[..c3][i];
  }

  lemma NoCommaBefore(line: string, c3: nat, c5: nat)
    requires c3 < |line| && line[..c3] == "update" && c5 < |line| && line[c5] == ',' && line[c3] == ':'
    ensures c3 < c5
  {
    assert forall i :: 0 <= i < c3 ==> line[i] == line[..c3][i];
  }

  predicate IsComment(line: string) {
    StartsWith(line, "//")
  }

  /** The line is an update command: its first colon follows the word itself. */
  predicate IsUpdate(line: string) {
    var c3 := StrChr(line, ':', 0);
    !IsComment(line) && c3 > 2 && line[..c3] == "update"
  }

  /** One line: the file it makes, if any, and the place up to which is read. */
  function UnpackLine(line: string, file: bytes, at: nat): (seq<Extracted>, nat)
    requires file != "" && at <= |file|
  {
    if !IsUpdate(line) then ([], at)
    else
      var (path, name, size) := Entry(line, StrChr(line, ':', 0));
      if name == "" || size <= 0 then ([], at)
      else ([Extracted(path, name, ReadBytes(file, at, size))], Advance(file, at, size))
  }

  function UnpackLines(lines: seq<string>, file: bytes, at: nat): seq<Extracted>
    requires file != "" && at <= |file|
  {
    if lines == [] then []
    else
      var (made, next) := UnpackLine(lines[0], file, at);
      UnpackNext(lines[0], file, at);
      made + UnpackLines(lines[1..], file, next)
  }

  lemma UnpackNext(line: string, file: bytes, at: nat)
    requires file != "" && at <= |file|
    ensures UnpackLine(line, file, at).1 <= |file|
  {
  }

  lemma UnpackStep(line: string, rest: seq<string>, file: bytes, at: nat)
    requires file != "" && at <= |file|
    ensures UnpackLine(line, file, at).1 <= |file|
    ensures UnpackLines([line] + rest, file, at) ==
            UnpackLine(line, file, at).0 + UnpackLines(rest, file, UnpackLine(line, file, at).1)
  {
    hide UnpackLine;
    UnpackNext(line, file, at);
    assert ([line] + rest)[1..] == rest;
  }

  /** The C string in the last 1024 bytes. */
  function ScriptOf(file: bytes): string
    requires |file| >= SCRIPT_LEN
  {
    var region := file[|file| - SCRIPT_LEN..];
    var nul := StrChr(region, '\0', 0);
    if nul < 0 then region else region[..nul]
  }

  /** None without the keyword. A file too short for a script, and a script without
      a terminator, are not part of this model. */
  datatype Unpacking = Unpacked(made: seq<Extracted>) | NotAPackage

  function Unpack(file: bytes): Unpacking
    requires |file| >= SCRIPT_LEN
  {
    if !StartsWith(ScriptOf(file), SCRIPT_KEYWORD) then NotAPackage
    else Unpacked(UnpackLines(Lines(ScriptOf(file), 0), file, 0))
  }

  /** updateV2, up to what is done with the files it wrote. */
  method UpdateV2(file: bytes) returns (r: Unpacking)
    requires |file| >= SCRIPT_LEN
    ensures r == Unpack(file)
  {
    hide Entry, Lines, UnpackLines, UnpackLine, ScriptOf, StartsWith;
    var script := ScriptOf(file);
    if !StartsWith(script, SCRIPT_KEYWORD) {
      return NotAPackage;
    }
    var made: seq<Extracted> := [];
    var at: nat := 0;
    ghost var all := UnpackLines(Lines(script, 0), file, 0);
    ghost var lines := Lines(script, 0);
    assert made + all == all;
    var found, line, next := StrTok(script, 0);
    while found
      invariant next <= |script| && at <= |file|
      invariant found ==> lines == [line] + Lines(script, next)
      invariant !found ==> lines == []
      invariant all == made + UnpackLines(lines, file, at)
      decreases |script| - next, found
    {
      ghost var rest := Lines(script, next);
      UnpackStep(line, rest, file, at);
      var more;
      more, at := UnpackOne(line, file, at);
      assert made + (more + UnpackLines(rest, file, at)) == (made + more) + UnpackLines(rest, file, at);
      made := made + more;
      lines := rest;
      found, line, next := StrTok(script, next);
    }
    UnpackNothing(file, at);
    assert made + [] == made;
    r := Unpacked(made);
  }

  lemma UnpackNothing(file: bytes, at: nat)
    requires file != "" && at <= |file|
    ensures UnpackLines([], file, at) == []
  {
  }

  method UnpackOne(line: string, file: bytes, at: nat) returns (made: seq<Extracted>, next: nat)
    requires file != "" && at <= |file|
    ensures (made, next) == UnpackLine(line, file, at)
  {
    made, next := [], at;
    if |line| >= 2 && line[0] == '/' && line[1] == '/' {
      assert line[..2] == "//";
      return;
    }
    assert IsComment(line) ==> line[0] == line[..2][0] && line[1] == line[..2][1];
    var c3 := StrChr(line, ':', 0);
    if c3 >= 0 {
      var cmd := line[..c3];
      if |cmd| > 2 && cmd == "update" {
        var path, name, size := ReadEntry(line, c3);
        if |name| > 0 && size > 0 {
          var data;
          data, next := ReadFile(file, at, size);
          made := [Extracted(path, name, data)];
        }
      }
    }
  }

  method ReadFile(file: bytes, at: nat, size: nat) returns (data: bytes, next: nat)
    requires file != "" && at <= |file|
    ensures data == ReadBytes(file, at, size) && next == Advance(file, at, size)
  {
    data, next := "", at;
    for i := 0 to size
      invariant |data| == i && next == Advance(file, at, i)
      invariant forall k :: 0 <= k < i ==> data[k] == file[if at + k < |file| then at + k else |file| - 1]
    {
      var cc := file[if next < |file| then next else |file| - 1];
      if next < |file| {
        next := next + 1;
      }
      data := data + [cc];
    }
  }

  method ReadEntry(line: string, c3: nat) returns (path: string, name: string, size: int)
    requires c3 < |line| && line[..c3] == "update" && line[c3] == ':'
    ensures (path, name, size) == Entry(line, c3)
  {
    path, name, size := "", "", 0;
    var c4 := StrRChr(line, '/', |line|);
    if c4 >= 0 {
      NoSlashBefore(line, c3, c4);
      path := line[c3 + 1..c4];
      var c5 := StrChr(line, ',', c4);
      if c5 >= 0 {
        name := line[c4 + 1..c5];
        size := Atoi(line, c5 + 1);
      }
    } else {
      var c5 := StrRChr(line, ',', |line|);
      if c5 >= 0 {
        NoCommaBefore(line, c3, c5);
        name := line[c3 + 1..c5];
        size := Atoi(line, c5 + 1);
      }
    }
  }

  // ----- the round trip

  /** The position of the only comma. */
  predicate OneComma(line: string, c: int) {
    0 <= c < |line| && line[c] == ',' && forall k :: 0 <= k < |line| && k != c ==> line[k] != ','
  }

  /** An update command with one comma, behind a name of two characters or more, and a
      positive size. */
  predicate PlainUpdate(line: string) {
    && IsUpdate(line)
    && OneComma(line, StrChr(line, ',', 0))
    && StrChr(line, ',', 0) - NameStart(line) > 2
    && Atoi(line, StrChr(line, ',', 0) + 1) > 0
  }

  function LineName(line: string): string
    requires PlainUpdate(line)
  {
    line[NameStart(line) + 1..StrChr(line, ',', 0)]
  }

  /** The path is what stands between colon and last slash. */
  function LinePath(line: string): string
    requires PlainUpdate(line)
  {
    var c3, slash := StrChr(line, ':', 0), StrRChr(line, '/', |line|);
    if slash >= 0 then
      NoSlashBefore(line, c3, slash);
      line[c3 + 1..slash]
    else ""
  }

  function LineSize(line: string): (n: nat)
    requires PlainUpdate(line)
    ensures n > 0
  {
    Atoi(line, StrChr(line, ',', 0) + 1)
  }

  /** A line that is no update command to the gateway, such as a comment or a copy line,
      or a plain update line whose file exists. */
  predicate Good(line: string, files: map<string, bytes>) {
    IsUpdate(line) ==> PlainUpdate(line) && Source(LineName(line)) in files
  }

  predicate AllGood(lines: seq<string>, files: map<string, bytes>) {
    forall k :: 0 <= k < |lines| ==> Good(lines[k], files)
  }

  /** What the tool packages for a line, whether the gateway reads it or not. */
  function Added(line: string, files: map<string, bytes>): bytes {
    if Contains(line, UPDATE, 0) then Content(files, NameIn(line, NameStart(line)).0)
    else if Contains(line, COPY, 0) then Content(files, NameIn(line, StrChr(line, ':', 0)).0)
    else ""
  }

  function Contents(lines: seq<string>, files: map<string, bytes>): bytes {
    if lines == [] then "" else Added(lines[0], files) + Contents(lines[1..], files)
  }

  /** Where the tool puts the content of line k. */
  function PackedAt(lines: seq<string>, files: map<string, bytes>, k: nat): nat
    requires k <= |lines|
  {
    if k == 0 then 0 else |Added(lines[0], files)| + PackedAt(lines[1..], files, k - 1)
  }

  /** Where the gateway reads the file of line k. */
  function ReadAt(lines: seq<string>, files: map<string, bytes>, k: nat): nat
    requires k <= |lines| && AllGood(lines, files)
  {
    if k == 0 then 0
    else
      assert Good(lines[0], files);
      (if IsUpdate(lines[0]) then LineSize(lines[0]) else 0) + ReadAt(lines[1..], files, k - 1)
  }

  function UpdatesBefore(lines: seq<string>, k: nat): nat
    requires k <= |lines|
  {
    if k == 0 then 0 else (if IsUpdate(lines[0]) then 1 else 0) + UpdatesBefore(lines[1..], k - 1)
  }

  function EntryOf(line: string, files: map<string, bytes>): Extracted
    requires IsUpdate(line) && Good(line, files)
  {
    Extracted(LinePath(line), LineName(line), files[Source(LineName(line))])
  }

  /** The files of the update lines, in order. */
  function Entries(lines: seq<string>, files: map<string, bytes>): seq<Extracted>
    requires AllGood(lines, files)
  {
    if lines == [] then []
    else
      var line := lines[0];
      assert Good(line, files);
      (if IsUpdate(line) then [EntryOf(line, files)] else []) + Entries(lines[1..], files)
  }

  lemma {:induction false} ContainsAt(s: string, w: string, i: nat, k: nat)
    requires i <= k <= |s| && StartsWith(s[k..], w)
    ensures Contains(s, w, i)
    decreases k - i
  {
    if i < k {
      ContainsAt(s, w, i + 1, k);
    }
  }

  lemma UpdateContains(line: string)
    requires IsUpdate(line)
    ensures Contains(line, UPDATE, 0)
  {
    var c3 := StrChr(line, ':', 0);
    assert line[..c3 + 1] == line[..c3] + [':'] == UPDATE;
    assert line[0..] == line;
    ContainsAt(line, UPDATE, 0, 0);
  }

  lemma {:induction false} OnlyComma(line: string, c: nat, i: nat)
    requires OneComma(line, c) && i <= c
    ensures StrChr(line, ',', i) == c
  {
  }

  lemma {:induction false} LastComma(line: string, c: nat)
    requires OneComma(line, c)
    ensures StrRChr(line, ',', |line|) == c
  {
  }

  /** Both tools read the same name and size in such a line. */
  lemma SameEntry(line: string)
    requires PlainUpdate(line)
    ensures var c := StrChr(line, ',', 0);
            && 0 <= NameStart(line) && StrChr(line, ',', NameStart(line)) == c
            && Entry(line, StrChr(line, ':', 0)) == (LinePath(line), LineName(line), Atoi(line, c + 1))
  {
    hide Atoi;
    var c := StrChr(line, ',', 0);
    OnlyComma(line, c, NameStart(line));
    LastComma(line, c);
  }

  /** Every line that packs appends what Added says. */
  lemma PackAdds(line: string, files: map<string, bytes>, p: Packing)
    requires p.Packed? && PackLine(line, files, p).Packed?
    ensures PackLine(line, files, p).out == p.out + Added(line, files)
  {
    hide Atoi, Contains, Content, NameIn, NameStart;
    assert p.out + "" == p.out;
  }

  /** An update line that packs has the size it states. */
  lemma PackSized(line: string, files: map<string, bytes>, p: Packing)
    requires p.Packed? && PackLine(line, files, p).Packed?
    requires Good(line, files) && IsUpdate(line)
    ensures Added(line, files) == files[Source(LineName(line))] && |Added(line, files)| == LineSize(line)
  {
    hide Atoi, Contains, Entry, IsUpdate, Source;
    UpdateContains(line);
    SameEntry(line);
    assert NameIn(line, NameStart(line)) == (LineName(line), StrChr(line, ',', 0));
  }

  lemma ScriptAtEnd(out: bytes, script: string)
    requires |script| < SCRIPT_LEN && '\0' !in script
    ensures ScriptOf(out + script + Nuls(SCRIPT_LEN - |script|)) == script
  {
    var nuls := Nuls(SCRIPT_LEN - |script|);
    var file := out + script + nuls;
    var region := file[|file| - SCRIPT_LEN..];
    assert region == script + nuls;
    assert region[|script|] == '\0';
    assert forall k :: 0 <= k < |script| ==> region[k] == script[k];
  }

  // ----- what the tool packages and where

  /** The size check: update lines state the sizes of their files. */
  predicate Sized(lines: seq<string>, files: map<string, bytes>)
    requires AllGood(lines, files)
  {
    forall k :: 0 <= k < |lines| && IsUpdate(lines[k]) ==>
                  Good(lines[k], files) && Added(lines[k], files) == files[Source(LineName(lines[k]))]
                  && |Added(lines[k], files)| == LineSize(lines[k])
  }

  lemma {:induction false} PackedContents(lines: seq<string>, files: map<string, bytes>, p: Packing)
    requires p.Packed? && AllGood(lines, files) && PackLines(lines, files, p).Packed?
    ensures PackLines(lines, files, p).out == p.out + Contents(lines, files)
    ensures Sized(lines, files)
  {
    hide PackLine, Added, IsUpdate, LineSize, LineName, Source, PlainUpdate;
    if lines == [] {
      assert p.out + "" == p.out;
    } else {
      var line, rest := lines[0], lines[1..];
      assert Good(line, files);
      PackAdds(line, files, p);
      if IsUpdate(line) {
        PackSized(line, files, p);
      }
      PackedContents(rest, files, PackLine(line, files, p));
      assert (p.out + Added(line, files)) + Contents(rest, files) == p.out + Contents(lines, files);
      forall k | 0 <= k < |lines| && IsUpdate(lines[k])
        ensures Good(lines[k], files) && Added(lines[k], files) == files[Source(LineName(lines[k]))]
        ensures |Added(lines[k], files)| == LineSize(lines[k])
      {
        assert k > 0 ==> lines[k] == rest[k - 1];
      }
    }
  }

  lemma {:induction false} ContentsAt(lines: seq<string>, files: map<string, bytes>, k: nat)
    requires k < |lines|
    ensures PackedAt(lines, files, k) + |Added(lines[k], files)| <= |Contents(lines, files)|
    ensures Slice(Contents(lines, files), PackedAt(lines, files, k), |Added(lines[k], files)|) == Added(lines[k], files)
  {
    hide Added, Slice;
    var own, rest := Added(lines[0], files), Contents(lines[1..], files);
    if k == 0 {
      SliceFront(own, rest);
    } else {
      ContentsAt(lines[1..], files, k - 1);
      SliceBehind(own, rest, PackedAt(lines[1..], files, k - 1), |Added(lines[k], files)|);
    }
  }

  lemma SliceFront(a: bytes, b: bytes)
    ensures Slice(a + b, 0, |a|) == a
  {
  }

  lemma SliceBehind(a: bytes, b: bytes, at: nat, size: nat)
    requires at + size <= |b|
    ensures Slice(a + b, |a| + at, size) == Slice(b, at, size)
  {
  }

  function Slice(file: bytes, at: nat, size: nat): bytes
    requires at + size <= |file|
  {
    file[at..at + size]
  }

  // ----- where the gateway reads

  lemma {:induction false} ReadAtGrows(lines: seq<string>, files: map<string, bytes>, k: nat)
    requires AllGood(lines, files) && k < |lines|
    ensures ReadAt(lines, files, k) <= ReadAt(lines, files, |lines|)
    ensures IsUpdate(lines[k]) ==>
              Good(lines[k], files) &&
              ReadAt(lines, files, k) + LineSize(lines[k]) <= ReadAt(lines, files, |lines|)
  {
    hide IsUpdate, LineSize, PlainUpdate, Source, LineName;
    assert Good(lines[0], files) && Good(lines[k], files);
    if k > 0 {
      ReadAtGrows(lines[1..], files, k - 1);
    }
  }

  lemma UnpackUpdate(line: string, files: map<string, bytes>, file: bytes, at: nat)
    requires IsUpdate(line) && Good(line, files) && file != "" && at + LineSize(line) <= |file|
    ensures UnpackLine(line, file, at) ==
            ([Extracted(LinePath(line), LineName(line), Slice(file, at, LineSize(line)))], at + LineSize(line))
  {
    hide Atoi, Entry;
    SameEntry(line);
    assert ReadBytes(file, at, LineSize(line)) == Slice(file, at, LineSize(line));
  }

  /** The extracted files are those of the update lines, in order; the data of each is
      what the file holds behind the sizes of the update lines before it. */
  lemma {:induction false} UnpackReads(lines: seq<string>, files: map<string, bytes>, file: bytes, at: nat, k: nat)
    requires AllGood(lines, files) && file != "" && k <= |lines|
    requires at + ReadAt(lines, files, |lines|) <= |file|
    ensures |UnpackLines(lines, file, at)| == UpdatesBefore(lines, |lines|)
    ensures k < |lines| && IsUpdate(lines[k]) ==>
              && Good(lines[k], files) && at + ReadAt(lines, files, k) + LineSize(lines[k]) <= |file|
              && UpdatesBefore(lines, k) < |UnpackLines(lines, file, at)|
              && UnpackLines(lines, file, at)[UpdatesBefore(lines, k)] ==
                 Extracted(LinePath(lines[k]), LineName(lines[k]),
                           Slice(file, at + ReadAt(lines, files, k), LineSize(lines[k])))
  {
    hide IsUpdate, LineSize, PlainUpdate, Source, LineName, LinePath, UnpackLine, UnpackLines, Slice;
    if lines == [] {
      UnpackNothing(file, at);
    } else {
      var line, rest := lines[0], lines[1..];
      assert lines == [line] + rest;
      assert Good(line, files);
      UnpackStep(line, rest, file, at);
      if IsUpdate(line) {
        ReadAtGrows(lines, files, 0);
        UnpackUpdate(line, files, file, at);
      } else {
        Ignored(line, file, at);
      }
      UnpackReads(rest, files, file, UnpackLine(line, file, at).1, if k == 0 then 0 else k - 1);
    }
  }

  lemma Ignored(line: string, file: bytes, at: nat)
    requires !IsUpdate(line) && file != "" && at <= |file|
    ensures UnpackLine(line, file, at) == ([], at)
  {
  }

  // ----- when both agree

  /** No line before line k that the gateway ignores has anything packaged for it. */
  predicate NothingIgnoredBefore(lines: seq<string>, files: map<string, bytes>, k: nat)
    requires k <= |lines|
  {
    forall i :: 0 <= i < k && !IsUpdate(lines[i]) ==> Added(lines[i], files) == ""
  }

  /** The gateway reads the file of a line where the tool put it if and only if nothing
      was packaged for an ignored line before it; otherwise it reads too early. */
  lemma {:induction false} OffsetsAgree(lines: seq<string>, files: map<string, bytes>, k: nat)
    requires AllGood(lines, files) && Sized(lines, files) && k <= |lines|
    ensures ReadAt(lines, files, k) <= PackedAt(lines, files, k)
    ensures ReadAt(lines, files, k) == PackedAt(lines, files, k) <==> NothingIgnoredBefore(lines, files, k)
  {
    hide IsUpdate, LineSize, PlainUpdate, Source, LineName, Added;
    if k > 0 {
      var line, rest := lines[0], lines[1..];
      assert Good(line, files);
      assert forall i :: 0 <= i < |rest| ==> rest[i] == lines[i + 1] && Good(lines[i + 1], files);
      OffsetsAgree(rest, files, k - 1);
      if NothingIgnoredBefore(rest, files, k - 1) && (IsUpdate(line) || Added(line, files) == "") {
        forall i | 0 <= i < k && !IsUpdate(lines[i]) ensures Added(lines[i], files) == "" {
          assert i > 0 ==> lines[i] == rest[i - 1];
        }
      }
    }
  }

  lemma {:induction false} EntriesAt(lines: seq<string>, files: map<string, bytes>, k: nat)
    requires AllGood(lines, files) && k <= |lines|
    ensures |Entries(lines, files)| == UpdatesBefore(lines, |lines|)
    ensures k < |lines| && IsUpdate(lines[k]) ==>
              && Good(lines[k], files) && UpdatesBefore(lines, k) < |Entries(lines, files)|
              && Entries(lines, files)[UpdatesBefore(lines, k)] == EntryOf(lines[k], files)
  {
    hide IsUpdate, Good, EntryOf, Entries, UpdatesBefore;
    if lines == [] {
      NoEntries(lines, files);
    } else {
      EntriesStep(lines, files);
      UpdatesStep(lines, |lines|);
      if k == 0 {
        UpdatesStart(lines);
        EntriesAt(lines[1..], files, 0);
      } else {
        UpdatesStep(lines, k);
        EntriesAt(lines[1..], files, k - 1);
      }
    }
  }

  lemma NoEntries(lines: seq<string>, files: map<string, bytes>)
    requires lines == []
    ensures |Entries(lines, files)| == UpdatesBefore(lines, 0) == 0
  {
  }

  lemma EntriesStep(lines: seq<string>, files: map<string, bytes>)
    requires lines != [] && AllGood(lines, files)
    ensures Good(lines[0], files)
    ensures Entries(lines, files) ==
            (if IsUpdate(lines[0]) then [EntryOf(lines[0], files)] else []) + Entries(lines[1..], files)
  {
    hide IsUpdate, Good, EntryOf;
    assert Good(lines[0], files);
  }

  lemma UpdatesStep(lines: seq<string>, k: nat)
    requires 0 < k <= |lines|
    ensures UpdatesBefore(lines, k) == (if IsUpdate(lines[0]) then 1 else 0) + UpdatesBefore(lines[1..], k - 1)
  {
    hide IsUpdate;
  }

  lemma UpdatesStart(lines: seq<string>)
    ensures UpdatesBefore(lines, 0) == 0
  {
  }

  lemma {:induction false} LineOfUpdate(lines: seq<string>, m: nat) returns (k: nat)
    requires m < UpdatesBefore(lines, |lines|)
    ensures k < |lines| && IsUpdate(lines[k]) && UpdatesBefore(lines, k) == m
  {
    hide IsUpdate;
    if m == 0 && IsUpdate(lines[0]) {
      k := 0;
    } else {
      k := LineOfUpdate(lines[1..], if IsUpdate(lines[0]) then m - 1 else m);
      k := k + 1;
    }
  }

  // ----- packages

  /** In every package whose update lines are plain, whatever else the script holds: the
      gateway extracts one file for each update line, in order. Its data are read behind
      the sizes of the update lines before it, while the file was put behind everything
      that was packaged before it. */
  lemma WhereFilesAreRead(script: string, files: map<string, bytes>, size: int, k: nat)
    requires |script| < SCRIPT_LEN && '\0' !in script && k < |Lines(script, 0)|
    requires AllGood(Lines(script, 0), files) && IsUpdate(Lines(script, 0)[k])
    requires MakePackage(script, files, size).Package?
    ensures var lines, file := Lines(script, 0), MakePackage(script, files, size).file;
            && |file| >= SCRIPT_LEN && Unpack(file).Unpacked? && Good(lines[k], files)
            && var line, made := lines[k], Unpack(file).made;
            && |made| == UpdatesBefore(lines, |lines|) && UpdatesBefore(lines, k) < |made|
            && ReadAt(lines, files, k) <= PackedAt(lines, files, k)
            && PackedAt(lines, files, k) + LineSize(line) <= |file|
            && made[UpdatesBefore(lines, k)] ==
               Extracted(LinePath(line), LineName(line), Slice(file, ReadAt(lines, files, k), LineSize(line)))
            && files[Source(LineName(line))] == Slice(file, PackedAt(lines, files, k), LineSize(line))
            && Sized(lines, files)
  {
    hide IsUpdate, LineSize, PlainUpdate, Source, LineName, LinePath, Added, Lines, PackLines, UnpackLines,
         Contents, ScriptOf;
    var lines := Lines(script, 0);
    assert Good(lines[k], files);
    var p := PackLines(lines, files, Packed("", size));
    var after := script + Nuls(SCRIPT_LEN - |script|);
    PackedContents(lines, files, Packed("", size));
    assert "" + Contents(lines, files) == Contents(lines, files) == p.out;
    ScriptAtEnd(p.out, script);
    var file := p.out + script + Nuls(SCRIPT_LEN - |script|);
    assert file == p.out + after;
    TotalSizes(lines, files);
    UnpackReads(lines, files, file, 0, k);
    OffsetsAgree(lines, files, k);
    ContentsAt(lines, files, k);
  }

  lemma TotalSizes(lines: seq<string>, files: map<string, bytes>)
    requires AllGood(lines, files) && Sized(lines, files)
    ensures ReadAt(lines, files, |lines|) <= PackedAt(lines, files, |lines|) == |Contents(lines, files)|
  {
    OffsetsAgree(lines, files, |lines|);
    PackedTotal(lines, files);
  }

  lemma {:induction false} PackedTotal(lines: seq<string>, files: map<string, bytes>)
    ensures PackedAt(lines, files, |lines|) == |Contents(lines, files)|
  {
    hide Added;
    if lines != [] {
      PackedTotal(lines[1..], files);
    }
  }

  /** Taking a package apart gives back, for every update line of the script, the file
      it names, whenever nothing was packaged for an ignored line before it. */
  lemma PackThenUnpack(script: string, files: map<string, bytes>, size: int)
    requires |script| < SCRIPT_LEN && '\0' !in script && AllGood(Lines(script, 0), files)
    requires forall k :: 0 <= k < |Lines(script, 0)| && IsUpdate(Lines(script, 0)[k]) ==>
                           NothingIgnoredBefore(Lines(script, 0), files, k)
    requires MakePackage(script, files, size).Package?
    ensures var file := MakePackage(script, files, size).file;
            |file| >= SCRIPT_LEN && Unpack(file) == Unpacked(Entries(Lines(script, 0), files))
  {
    hide IsUpdate, LineSize, PlainUpdate, Source, LineName, LinePath, Added, Lines, PackLines, UnpackLines,
         Contents, ScriptOf, Entries, NothingIgnoredBefore;
    var lines := Lines(script, 0);
    var file := MakePackage(script, files, size).file;
    Unpacks(script, files, size);
    var made := Unpack(file).made;
    EntriesAt(lines, files, 0);
    forall m | 0 <= m < |made| ensures made[m] == Entries(lines, files)[m] {
      var k := LineOfUpdate(lines, m);
      WhereFilesAreRead(script, files, size, k);
      OffsetsAgree(lines, files, k);
      EntriesAt(lines, files, k);
    }
  }

  lemma Unpacks(script: string, files: map<string, bytes>, size: int)
    requires |script| < SCRIPT_LEN && '\0' !in script && AllGood(Lines(script, 0), files)
    requires MakePackage(script, files, size).Package?
    ensures var lines, file := Lines(script, 0), MakePackage(script, files, size).file;
            && |file| >= SCRIPT_LEN && Unpack(file).Unpacked?
            && |Unpack(file).made| == UpdatesBefore(lines, |lines|)
  {
    hide IsUpdate, LineSize, PlainUpdate, Source, LineName, LinePath, Added, Lines, PackLines, UnpackLines,
         Contents, ScriptOf;
    var lines := Lines(script, 0);
    var p := PackLines(lines, files, Packed("", size));
    PackedContents(lines, files, Packed("", size));
    assert "" + Contents(lines, files) == Contents(lines, files) == p.out;
    ScriptAtEnd(p.out, script);
    var file := p.out + script + Nuls(SCRIPT_LEN - |script|);
    TotalSizes(lines, files);
    UnpackReads(lines, files, file, 0, |lines|);
  }

  // ----- lines the gateway ignores

  /** A name of two characters or more, up to the next comma, names a file with
      content. */
  predicate NamesContent(line: string, c1: nat, files: map<string, bytes>)
    requires c1 < |line|
  {
    var comma := StrChr(line, ',', c1);
    comma - c1 > 2 && Source(line[c1 + 1..comma]) in files && files[Source(line[c1 + 1..comma])] != ""
  }

  lemma ContentOfName(line: string, c1: nat, files: map<string, bytes>)
    requires c1 < |line|
    ensures Content(files, NameIn(line, c1).0) != "" <==> NamesContent(line, c1, files)
  {
    hide StrChr, Source;
    var comma := StrChr(line, ',', c1);
    if comma - c1 > 2 {
      assert NameIn(line, c1).0 == line[c1 + 1..comma];
      assert |line[c1 + 1..comma]| == comma - c1 - 1;
    }
  }

  /** A commented-out update line has something packaged for it if and only if what
      stands behind its last slash, which may be the comment's own, names content. */
  lemma CommentAdds(line: string, files: map<string, bytes>)
    requires IsComment(line) && Contains(line, UPDATE, 0)
    ensures var slash := StrRChr(line, '/', |line|);
            slash >= 1 && (Added(line, files) != "" <==> NamesContent(line, slash, files))
  {
    hide Contains, StrRChr, NamesContent, NameIn, Content;
    assert line[1] == line[..2][1] == '/';
    ContentOfName(line, StrRChr(line, '/', |line|), files);
  }

  /** The same for a copy line, commented out or not, behind its first colon: the gateway
      does nothing for it. */
  lemma CopyAdds(line: string, files: map<string, bytes>)
    requires Contains(line, COPY, 0) && !Contains(line, UPDATE, 0)
    ensures !IsUpdate(line)
    ensures var colon := StrChr(line, ':', 0);
            Added(line, files) != "" <==> colon >= 0 && NamesContent(line, colon, files)
  {
    hide Contains, StrChr, NamesContent, Content;
    if IsUpdate(line) {
      UpdateContains(line);
    }
    var colon := StrChr(line, ':', 0);
    if colon >= 0 {
      ContentOfName(line, colon, files);
    } else {
      assert NameIn(line, colon).0 == "";
      assert Content(files, "") == "" by { NoName(files); }
    }
  }

  lemma NoName(files: map<string, bytes>)
    ensures Content(files, "") == ""
  {
  }

  // ----- a script that goes wrong

  const HARMLESS: string := "//update:ab,1"

  function Heading(): string {
    SCRIPT_KEYWORD
  }

  function Comment(): string {
    "//update:/ab,1"
  }

  function NextFile(): string {
    "update:cd,1"
  }

  lemma {:induction false} NoColon(s: string, w: string, i: nat)
    requires i <= |s| && ':' !in s && ':' in w
    ensures !Contains(s, w, i)
    decreases |s| - i
  {
    assert ':' !in s[i..];
    if i < |s| {
      NoColon(s, w, i + 1);
    }
  }

  lemma KeywordLine(files: map<string, bytes>, p: Packing)
    ensures Added(Heading(), files) == "" && !IsUpdate(Heading())
    ensures p.Packed? ==> PackLine(Heading(), files, p) == p
  {
    hide Contains, StrChr;
    assert UPDATE[6] == ':' && COPY[4] == ':';
    NoColon(Heading(), UPDATE, 0);
    NoColon(Heading(), COPY, 0);
  }

  lemma CommentLine(files: map<string, bytes>, p: Packing)
    requires "ab" in files && |files["ab"]| == 1
    ensures !IsUpdate(Comment()) && Added(Comment(), files) == files["ab"]
    ensures p.Packed? ==> PackLine(Comment(), files, p) == Packed(p.out + files["ab"], 1)
  {
    hide Contains, StrChr, StrRChr, Atoi;
    assert Comment()[2..][..|UPDATE|] == UPDATE;
    ContainsAt(Comment(), UPDATE, 0, 2);
    StrRChrIs(Comment(), '/', 9);
    StrChrIs(Comment(), ',', 9, 12);
    assert Comment()[10..12] == "ab";
    AtoiOne(Comment());
  }

  lemma AtoiOne(s: string)
    requires s != "" && s[|s| - 1] == '1'
    ensures Atoi(s, |s| - 1) == 1
  {
    assert IsDigit('1') && DigitValue('1') == 1;
    assert Digits(s, |s|, 1) == 1;
  }

  lemma NextLine(files: map<string, bytes>, p: Packing)
    requires "cd" in files && |files["cd"]| == 1
    ensures IsUpdate(NextFile()) && Good(NextFile(), files)
    ensures LinePath(NextFile()) == "" && LineName(NextFile()) == "cd" && LineSize(NextFile()) == 1
    ensures p.Packed? ==> PackLine(NextFile(), files, p) == Packed(p.out + files["cd"], 1)
  {
    hide Contains, StrChr, StrRChr, Atoi;
    StrChrIs(NextFile(), ':', 0, 6);
    assert NextFile()[..6] == "update";
    assert NextFile()[..2][0] == 'u';
    UpdateContains(NextFile());
    NoStrRChr(NextFile(), '/');
    StrChrIs(NextFile(), ',', 0, 9);
    StrChrIs(NextFile(), ',', 6, 9);
    assert NextFile()[7..9] == "cd";
    AtoiOne(NextFile());
  }

  /** The comment's own slash counts: no name begins behind another one here, so nothing
      is packaged unless a file is called update:ab. */
  lemma HarmlessComment(files: map<string, bytes>)
    requires "update:ab" !in files
    ensures Added(HARMLESS, files) == ""
  {
    hide Contains, StrChr, StrRChr;
    assert HARMLESS[2..][..|UPDATE|] == UPDATE;
    ContainsAt(HARMLESS, UPDATE, 0, 2);
    StrRChrIs(HARMLESS, '/', 1);
    StrChrIs(HARMLESS, ',', 1, 11);
    assert HARMLESS[2..11] == "update:ab";
  }

  function FailingScript(): string {
    Heading() + "\n" + (Comment() + "\n" + NextFile())
  }

  lemma ScriptLines()
    ensures Lines(FailingScript(), 0) == [Heading(), Comment(), NextFile()]
    ensures |FailingScript()| < SCRIPT_LEN && '\0' !in FailingScript() && StartsWith(FailingScript(), SCRIPT_KEYWORD)
  {
    hide Lines;
    LinesCons(Heading(), Comment() + "\n" + NextFile());
    LinesCons(Comment(), NextFile());
    LinesCons(NextFile(), "");
    assert [Heading()] + ([Comment()] + [NextFile()]) == [Heading(), Comment(), NextFile()];
    assert FailingScript()[..|SCRIPT_KEYWORD|] == SCRIPT_KEYWORD;
  }

  lemma PackStep(line: string, rest: seq<string>, files: map<string, bytes>, p: Packing)
    requires p.Packed?
    ensures PackLines([line] + rest, files, p) == PackLines(rest, files, PackLine(line, files, p))
  {
    hide PackLine;
    assert ([line] + rest)[1..] == rest;
  }

  lemma PackThree(a: string, b: string, c: string, files: map<string, bytes>, p: Packing, q: Packing, r: Packing)
    requires p.Packed? && PackLine(a, files, p) == p
    requires q.Packed? && PackLine(b, files, p) == q && PackLine(c, files, q) == r
    ensures PackLines([a, b, c], files, p) == r
  {
    hide PackLine, PackLines;
    PackStep(a, [b, c], files, p);
    PackStep(b, [c], files, p);
    PackStep(c, [], files, q);
    PackNothing(files, r);
    assert [a] + [b, c] == [a, b, c];
    assert [b] + [c] == [b, c] && [c] + [] == [c];
  }

  lemma PackNothing(files: map<string, bytes>, p: Packing)
    ensures PackLines([], files, p) == p
  {
  }

  lemma ThirdLineOnly(a: string, b: string, c: string, files: map<string, bytes>)
    requires AllGood([a, b, c], files) && !IsUpdate(a) && !IsUpdate(b) && IsUpdate(c)
    ensures ReadAt([a, b, c], files, 2) == 0
    ensures UpdatesBefore([a, b, c], 2) == 0 && UpdatesBefore([a, b, c], 3) == 1
  {
    hide IsUpdate, Good, LineSize;
    var lines := [a, b, c];
    assert lines[1..] == [b, c] && [b, c][1..] == [c];
    assert Good(lines[0], files) && Good(lines[1], files);
    assert ReadAt([b, c], files, 1) == ReadAt([c], files, 0) == 0;
    assert UpdatesBefore([c], 1) == 1 && UpdatesBefore([b, c], 2) == 1;
    assert UpdatesBefore([c], 0) == 0 && UpdatesBefore([b, c], 1) == 0;
  }

  lemma IgnoredInstead(script: string, a: string, b: string, c: string, files: map<string, bytes>, x: bytes, y: bytes)
    requires |script| < SCRIPT_LEN && '\0' !in script && StartsWith(script, SCRIPT_KEYWORD)
    requires Lines(script, 0) == [a, b, c] && AllGood([a, b, c], files)
    requires !IsUpdate(a) && !IsUpdate(b) && IsUpdate(c) && PlainUpdate(c) && LineSize(c) == |x|
    requires PackLines([a, b, c], files, Packed("", 0)) == Packed(x + y, |x|)
    ensures MakePackage(script, files, 0).Package?
    ensures var file := MakePackage(script, files, 0).file;
            |file| >= SCRIPT_LEN && Unpack(file) == Unpacked([Extracted(LinePath(c), LineName(c), x)])
  {
    hide PackLine, PackLines, IsUpdate, Added, LinePath, LineName, LineSize, Lines, Unpack, UnpackLines, StartsWith,
         Contents, PackedAt, Sized, Slice, UpdatesBefore, ReadAt, Nuls, PlainUpdate;
    WhereFilesAreRead(script, files, 0, 2);
    ThirdLineOnly(a, b, c, files);
    FirstBytes(x, y, script, Nuls(SCRIPT_LEN - |script|));
  }

  lemma FirstBytes(x: bytes, y: bytes, script: string, nuls: string)
    ensures Slice(x + y + script + nuls, 0, |x|) == x
  {
  }

  /** With a commented-out line in front, the gateway writes the content of the commented
      file under the name of the next one. */
  lemma CommentShifts(files: map<string, bytes>)
    requires "ab" in files && "cd" in files && |files["ab"]| == |files["cd"]| == 1
    ensures |FailingScript()| < SCRIPT_LEN && MakePackage(FailingScript(), files, 0).Package?
    ensures var file := MakePackage(FailingScript(), files, 0).file;
            |file| >= SCRIPT_LEN && Unpack(file) == Unpacked([Extracted("", "cd", files["ab"])])
  {
    hide *;
    var empty := Packed("", 0);
    var first := Packed("" + files["ab"], 1);
    ScriptLines();
    KeywordLine(files, empty);
    CommentLine(files, empty);
    NextLine(files, first);
    AllThreeGood(Heading(), Comment(), NextFile(), files);
    PackThree(Heading(), Comment(), NextFile(), files, empty, first, Packed("" + files["ab"] + files["cd"], 1));
    assert "" + files["ab"] == files["ab"];
    IgnoredInstead(FailingScript(), Heading(), Comment(), NextFile(), files, files["ab"], files["cd"]);
  }

  lemma AllThreeGood(a: string, b: string, c: string, files: map<string, bytes>)
    requires !IsUpdate(a) && !IsUpdate(b) && IsUpdate(c) && Good(c, files)
    ensures AllGood([a, b, c], files) && PlainUpdate(c)
  {
    hide IsUpdate;
  }
}
