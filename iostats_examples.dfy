/**
 * Worked lines of `/proc/diskstats` and what the two readers make of them.
 * Each example is stated for any line with the given columns; the decoders
 * see a line only through its tokens.
 */
module DiskstatsExamples {
  import opened Options
  import opened SplitWhitespace
  import opened DecimalI64
  import opened Diskstats

  /** The columns of a whole-disk line as the kernel prints it for `sda`. */
  const SdaColumns: seq<string> :=
    ["8", "0", "sda", "100", "0", "1600", "50", "0", "0", "0", "0", "0", "20", "50"]

  /** `printf("%*s", width, s)`: `s` right-aligned in a field of `width` characters. */
  function PadLeft(s: string, width: nat): (r: string)
    ensures |r| == if |s| < width then width else |s|
    ensures r[|r| - |s|..] == s && AllWhitespace(r[..|r| - |s|])
  {
    if |s| < width then seq(width - |s|, _ => ' ') + s else s
  }

  /** A padded field is its padding followed by the field, and the padding, after the
      separating space, is a non-empty run of white space. */
  lemma PadLeftParts(s: string, width: nat)
    ensures var p := PadLeft(s, width);
      p == p[..|p| - |s|] + s && AllWhitespace(" " + p[..|p| - |s|])
  {
    var p := PadLeft(s, width);
    var sp := p[..|p| - |s|];
    assert p == sp + p[|p| - |s|..];
    assert forall i :: 1 <= i < |" " + sp| ==> (" " + sp)[i] == sp[i - 1];
  }

  /** The two padded fields, taken apart into their padding and their digits. */
  lemma KernelLineRegrouped(sp1: string, major: string, sp2: string, minor: string, words: string)
    ensures (sp1 + major) + " " + (sp2 + minor) + " " + words + "\n"
         == sp1 + (major + ((" " + sp2) + (minor + (" " + (words + "\n")))))
  {
  }

  /** Two tokens, each after a run of white space, then single-space-separated columns. */
  lemma {:induction false} PaddedColumns(lead: string, major: string, gap: string, minor: string,
                                         rest: seq<string>)
    requires AllWhitespace(lead) && gap != [] && AllWhitespace(gap)
    requires IsToken(major) && IsToken(minor)
    requires forall i :: 0 <= i < |rest| ==> IsToken(rest[i])
    ensures Tokens(lead + (major + (gap + (minor + (" " + (JoinWords(rest) + "\n"))))))
         == [major, minor] + rest
  {
    var tail := JoinWords(rest) + "\n";
    var s2 := minor + (" " + tail);
    var s1 := gap + s2;
    var s0 := major + s1;
    assert Tokens(" " + tail) == rest by {
      TokensOfJoinWordsThen(rest, "\n");
      TokensSkipWhitespace(" ", tail);
    }
    assert Tokens(s2) == [minor] + rest by {
      assert (" " + tail)[0] == ' ';
      TokensOfTokenThen(minor, " " + tail);
    }
    assert Tokens(s0) == [major, minor] + rest by {
      TokensSkipWhitespace(gap, s2);
      assert s1[0] == gap[0];
      TokensOfTokenThen(major, s1);
      assert [major] + ([minor] + rest) == [major, minor] + rest;
    }
    TokensSkipWhitespace(lead, s0);
  }

  /**
   * The kernel prints a line as `%4d %7d %s %lu %lu ...`: the major and minor numbers
   * right-aligned in fields of 4 and 7 characters, then the name and the counters, each
   * after one space. Whatever the padding, the split gives back exactly the columns.
   */
  lemma KernelLineColumns(major: string, minor: string, rest: seq<string>)
    requires IsToken(major) && IsToken(minor)
    requires forall i :: 0 <= i < |rest| ==> IsToken(rest[i])
    ensures Tokens(PadLeft(major, 4) + " " + PadLeft(minor, 7) + " " + JoinWords(rest) + "\n")
         == [major, minor] + rest
  {
    PadLeftParts(major, 4);
    PadLeftParts(minor, 7);
    var p1, p2 := PadLeft(major, 4), PadLeft(minor, 7);
    var sp1, sp2 := p1[..|p1| - |major|], p2[..|p2| - |minor|];
    KernelLineRegrouped(sp1, major, sp2, minor, JoinWords(rest));
    PaddedColumns(sp1, major, " " + sp2, minor, rest);
  }

  /** The `sda` line with the kernel's padding splits into its 14 columns. */
  lemma PaddedSdaLine()
    ensures Tokens(PadLeft("8", 4) + " " + PadLeft("0", 7) + " " + JoinWords(SdaColumns[2..]) + "\n")
         == SdaColumns
  {
    assert forall i :: 0 <= i < |SdaColumns[2..]| ==> IsToken(SdaColumns[2..][i]);
    KernelLineColumns("8", "0", SdaColumns[2..]);
    assert SdaColumns == ["8", "0"] + SdaColumns[2..];
  }

  lemma SdaCounts()
    ensures ParseI64("1600") == Some(1600) && ParseI64("0") == Some(0)
  {
    assert DigitsValue("1") == 1 by { assert "1"[..0] == ""; }
    assert DigitsValue("16") == 16 by { assert "16"[..1] == "1"; }
    assert DigitsValue("160") == 160 by { assert "160"[..2] == "16"; }
    assert DigitsValue("1600") == 1600 by { assert "1600"[..3] == "160"; }
    assert DigitsValue("0") == 0 by { assert "0"[..0] == ""; }
  }

  /** The `sda` line gives the name from column 2, 1600 sectors read from column 5 and
      0 sectors written from column 9, in bytes; a file holding only that line gives
      that one record. */
  lemma SdaLineDecodes(line: string)
    requires Tokens(line) == SdaColumns
    ensures DecodeLine(line) == Record(IoStats("sda", 819200, 0))
    ensures ReadDiskstats(Opened([Chunk(line)]), AllDevices) == Ok([IoStats("sda", 819200, 0)])
  {
    SdaCounts();
    assert line != [];
    var steps := [Chunk(line)];
    CollectAt(steps, 0, AllDevices);
    assert steps[0..] == steps && steps[1..] == [];
    assert [IoStats("sda", 819200, 0)] + [] == [IoStats("sda", 819200, 0)];
  }

  /** A blank line has no column 2: the first `nth(2).unwrap()` aborts the call, and the
      record of the line before it is lost. */
  lemma BlankLineAborts(line: string)
    requires Tokens(line) == SdaColumns
    ensures ReadDiskstats(Opened([Chunk(line), Chunk("\n")]), AllDevices) == Panicked(MissingField)
  {
    SdaLineDecodes(line);
    TokensSkipWhitespace("\n", []);
    assert "\n" + [] == "\n";
    var steps := [Chunk(line), Chunk("\n")];
    CollectAt(steps, 0, AllDevices);
    CollectAt(steps, 1, AllDevices);
    assert steps[0..] == steps;
    assert DecodeLine("\n") == Abort(MissingField);
  }

  /** Ten columns get past the three `nth` calls but fail the count test: no record, no
      error, and the next line is read. */
  lemma TenColumnLineSkipped(short: string, line: string)
    requires Tokens(short) == SdaColumns[..10] && Tokens(line) == SdaColumns
    ensures ReadDiskstats(Opened([Chunk(short), Chunk(line)]), AllDevices)
         == Ok([IoStats("sda", 819200, 0)])
  {
    SdaLineDecodes(line);
    assert short != [];
    var steps := [Chunk(short), Chunk(line)];
    assert steps[1..] == [Chunk(line)];
  }

  /** A partition line whose read column is not a number. */
  const OddColumns: seq<string> :=
    ["8", "1", "sda1", "100", "0", "x", "0", "0", "0", "0", "0", "0", "0", "0"]

  lemma Sda1Path()
    ensures DevicePath("sda1") == "/sys/block/sda1/device" && '\0' !in "sda1"
  {
    assert ReplaceSlashes("sda1") == "sda1";
    assert "/sys/block/" + "sda1" + "/device" == "/sys/block/sda1/device";
  }

  lemma OddSelect(line: string)
    requires Tokens(line) == OddColumns
    ensures SelectFields(line) == Fields("sda1", "x", "0") && line != []
  {
    var ts := Tokens(line);
    assert ts[2] == "sda1" && ts[5] == "x" && ts[9] == "0";
  }

  /** A file of one line, as the reader sees it. */
  lemma OneLineFile(line: string, mode: Mode)
    requires line != []
    ensures ReadDiskstats(Opened([Chunk(line)]), mode) == Then(Decode(mode, line), Ok([]))
  {
    var steps := [Chunk(line)];
    CollectAt(steps, 0, mode);
    assert steps[0..] == steps && steps[1..] == [];
  }

  /** `get_iostats` aborts on the line, while `get_iostats_physical`, finding no sysfs
      descriptor for `sda1`, skips it without parsing. */
  lemma PhysicalChecksSysfsBeforeParsing(line: string, present: string -> bool)
    requires Tokens(line) == OddColumns
    requires !present("/sys/block/sda1/device")
    ensures ReadDiskstats(Opened([Chunk(line)]), AllDevices) == Panicked(NotAnInteger)
    ensures ReadDiskstats(Opened([Chunk(line)]), PhysicalOnly(present)) == Ok([])
  {
    OddSelect(line);
    assert ParseI64("x") == None;
    OneLineFile(line, AllDevices);
    OneLineFile(line, PhysicalOnly(present));
    PhysicalFieldsOutcome(line, present, "sda1", "x", "0");
    Sda1Path();
  }

  /** A Compaq Smart Array disk, whose name holds a slash. */
  const CcissColumns: seq<string> :=
    ["104", "0", "cciss/c0d0", "100", "0", "1600", "50", "0", "0", "0", "0", "0", "20", "50"]

  /** `name.replace("/", "!")` turns `cciss/c0d0` into `cciss!c0d0`. */
  lemma CcissPath()
    ensures DevicePath("cciss/c0d0") == "/sys/block/cciss!c0d0/device"
  {
    assert ReplaceSlashes("cciss/c0d0") == "cciss!c0d0";
  }

  lemma CcissSelect(line: string)
    requires Tokens(line) == CcissColumns
    ensures SelectFields(line) == Fields("cciss/c0d0", "1600", "0")
  {
    var ts := Tokens(line);
    assert ts[2] == "cciss/c0d0" && ts[5] == "1600" && ts[9] == "0";
  }

  lemma CcissRecord()
    ensures ToRecord("cciss/c0d0", "1600", "0") == Record(IoStats("cciss/c0d0", 819200, 0))
  {
    SdaCounts();
  }

  lemma CcissHasNoNul()
    ensures '\0' !in DevicePath("cciss/c0d0")
  {
    assert '\0' !in "cciss/c0d0";
    NulInDevicePath("cciss/c0d0");
  }

  /** The physical reader looks for `DevicePath("cciss/c0d0")`, which is
      `/sys/block/cciss!c0d0/device` (`CcissPath`), and, finding it, returns the record
      under the kernel's own name `cciss/c0d0`. */
  lemma SlashedNameLooksUpBangPath(line: string, present: string -> bool)
    requires Tokens(line) == CcissColumns
    requires present(DevicePath("cciss/c0d0"))
    ensures DecodePhysicalLine(line, present) == Record(IoStats("cciss/c0d0", 819200, 0))
  {
    CcissSelect(line);
    PhysicalFieldsOutcome(line, present, "cciss/c0d0", "1600", "0");
    CcissHasNoNul();
    CcissRecord();
  }
}
