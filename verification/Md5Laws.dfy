/**
 The MD5 of firmware files and that of the web server agree.
 */
module Md5Laws {
  import opened Md5Spec
  import opened Md5Context
  import FileMd5

  /** A file and the same bytes handed to mg_md5 in any pieces. */
  method SameDigest(file: bytes, parts: seq<bytes>) returns (fileSum: string, webSum: string)
    requires |file| < 0xffff_ffff && file == Concat(parts)
    requires forall i :: 0 <= i < |parts| ==> |parts[i]| < TWO32
    ensures fileSum == webSum == HexDigest(file)
  {
    hide HexDigest;
    var g := new FileMd5.Globals();
    g.Clear();
    var ok, sum := g.CalcFileMd5(file);
    var buf := new char[33](_ => '\0');
    MgMd5(buf, parts);
    fileSum, webSum := sum, buf[..32];
  }
}
