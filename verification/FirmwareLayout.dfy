/**
 Where a package holds its script, which the gateway knows before it has read anything, and
 how the lines and sizes in the script are read.
 */
module FirmwareLayout {
  import opened CText
  import opened Firmware
  import opened FirmwareText
  import opened JsonNumber

  /** A package is made if and only if the script starts with its keyword and no file fails; its
      last 1024 bytes are the script and zeros. */
  lemma ScriptIsAtTheEnd(script: string, files: map<string, bytes>, size: int)
    requires |script| < 1024
    ensures var r := MakePackage(script, files, size);
            && (r.NoKeyword? <==> |script| < 30 || script[..30] != "---Gateway FW Update Script---")
            && (r.Package? ==>
                  var n := |r.file| - 1024;
                  && n >= 0 && r.file[n..n + |script|] == script
                  && forall i :: n + |script| <= i < |r.file| ==> r.file[i] == '\0')
  {
    hide PackLines;
    assert |SCRIPT_KEYWORD| == 30;
    var r := MakePackage(script, files, size);
    if r.Package? {
      var out := r.file[..|r.file| - 1024];
      assert r.file == out + (script + Nuls(1024 - |script|));
      assert r.file[|out|..|out| + |script|] == (script + Nuls(1024 - |script|))[..|script|];
    }
  }

  // ----- sizes

  lemma {:induction false} DigitsAreRead(x: string, ds: string, rest: string, value: nat)
    requires AllDigits(ds) && !IsDigit(At(rest, 0))
    ensures Digits(x + ds + rest, |x|, value) == Onto(value, ds)
    decreases |ds|
  {
    var s := x + ds + rest;
    if ds != "" {
      DigitsAreRead(x + [ds[0]], ds[1..], rest, 10 * value + DigitValue(ds[0]));
      assert s == x + [ds[0]] + ds[1..] + rest && s[|x|] == ds[0];
    }
  }

  lemma SignIsRead(x: string, sign: string, ds: string, rest: string)
    requires sign in ["", "+", "-"] && AllDigits(ds) && ds != "" && !IsDigit(At(rest, 0))
    ensures Signed(x + sign + ds + rest, |x|) == if sign == "-" then -WholeValue(ds) else WholeValue(ds)
    ensures !IsSpace((x + sign + ds + rest)[|x|])
  {
    hide Digits, Onto, WholeValue;
    OntoIsWhole(ds);
    var s := x + sign + ds + rest;
    DigitsAreRead(x + sign, ds, rest, 0);
    assert s[|x|] == if sign == "" then ds[0] else sign[0];
    assert |x + sign| == |x| + |sign|;
  }

  /** A size behind white space, with a sign or without, is read as the number that its digits
      write. */
  lemma {:induction false} AtoiReadsDecimals(x: string, blanks: string, sign: string, ds: string, rest: string)
    requires forall i :: 0 <= i < |blanks| ==> blanks[i] in " \t\n\r"
    requires sign in ["", "+", "-"] && AllDigits(ds) && ds != "" && !IsDigit(At(rest, 0))
    ensures Atoi(x + blanks + sign + ds + rest, |x|) == if sign == "-" then -WholeValue(ds) else WholeValue(ds)
    decreases |blanks|
  {
    hide Signed, WholeValue;
    var s := x + blanks + sign + ds + rest;
    if blanks == "" {
      assert x + "" == x;
      SignIsRead(x, sign, ds, rest);
    } else {
      AtoiReadsDecimals(x + [blanks[0]], blanks[1..], sign, ds, rest);
      assert x + blanks == x + [blanks[0]] + blanks[1..];
      assert s[|x|] == blanks[0];
    }
  }

  // ----- lines

  function Joined(lines: seq<string>): string {
    if lines == [] then "" else lines[0] + "\n" + Joined(lines[1..])
  }

  function NotEmpty(lines: seq<string>): seq<string> {
    if lines == [] then [] else (if lines[0] == "" then [] else [lines[0]]) + NotEmpty(lines[1..])
  }

  /** The lines of a script, without the empty ones, come in order. */
  lemma {:induction false} LinesInOrder(lines: seq<string>)
    requires forall i :: 0 <= i < |lines| ==> '\n' !in lines[i]
    ensures Lines(Joined(lines), 0) == NotEmpty(lines)
  {
    if lines != [] {
      LinesInOrder(lines[1..]);
      var rest := Joined(lines[1..]);
      if lines[0] == "" {
        LinesShift("\n", rest, 0);
        assert "" + "\n" + rest == "\n" + rest;
      } else {
        LinesCons(lines[0], rest);
      }
    }
  }
}
