/**
 * Properties of the two `/proc/diskstats` readers, stated over the
 * specification functions their loops are proved equal to.
 */
module DiskstatsProperties {
  import opened Options
  import opened SplitWhitespace
  import opened DecimalI64
  import opened Diskstats

  /** Every record either reader returns is well formed: a one-token name and byte
      counters that are `i64` multiples of 512. */
  lemma {:induction false} CollectedRecordsWellFormed(steps: seq<ReadStep>, mode: Mode)
    requires Collect(steps, mode).Ok?
    ensures forall k :: 0 <= k < |Collect(steps, mode).stats| ==>
      WellFormedRecord(Collect(steps, mode).stats[k])
    decreases |steps|
  {
    if steps != [] && steps[0].Chunk? && steps[0].text != [] {
      var rest := Collect(steps[1..], mode);
      var line := Decode(mode, steps[0].text);
      assert Collect(steps, mode) == Then(line, rest);
      if line.Record? {
        DecodedRecordWellFormed(mode, steps[0].text);
        CollectedRecordsWellFormed(steps[1..], mode);
        assert Collect(steps, mode).stats == [line.stats] + rest.stats;
      } else if line.Skip? {
        CollectedRecordsWellFormed(steps[1..], mode);
      }
    }
  }

  lemma DecodedRecordWellFormed(mode: Mode, text: string)
    requires Decode(mode, text).Record?
    ensures WellFormedRecord(Decode(mode, text).stats)
  {
    if mode.PhysicalOnly? {
      assert Decode(mode, text) == DecodePhysicalLine(text, mode.present);
    }
  }

  /** Every device the physical reader returns has a reachable sysfs descriptor and a
      name `CString::new` accepts. */
  lemma {:induction false} PhysicalRecordsPresent(steps: seq<ReadStep>, present: string -> bool)
    requires Collect(steps, PhysicalOnly(present)).Ok?
    ensures forall k :: 0 <= k < |Collect(steps, PhysicalOnly(present)).stats| ==>
      var x := Collect(steps, PhysicalOnly(present)).stats[k];
      present(DevicePath(x.deviceName)) && '\0' !in x.deviceName
    decreases |steps|
  {
    var mode := PhysicalOnly(present);
    if steps != [] && steps[0].Chunk? && steps[0].text != [] {
      var rest := Collect(steps[1..], mode);
      match Decode(mode, steps[0].text)
      case Record(x) =>
        PhysicalRecordsPresent(steps[1..], present);
        assert Collect(steps, mode).stats == [x] + rest.stats;
      case Skip =>
        PhysicalRecordsPresent(steps[1..], present);
      case Abort(_) =>
      case Fail(_) =>
    }
  }

  /** The records whose sysfs descriptor is reachable, in their original order. */
  function KeepPresent(xs: seq<IoStats>, present: string -> bool): (r: seq<IoStats>)
    ensures |r| <= |xs|
    ensures forall k :: 0 <= k < |r| ==> r[k] in xs && present(DevicePath(r[k].deviceName))
    ensures forall k :: 0 <= k < |xs| && present(DevicePath(xs[k].deviceName)) ==> xs[k] in r
  {
    if xs == [] then []
    else
      var rest := KeepPresent(xs[1..], present);
      assert forall k :: 1 <= k < |xs| ==> xs[k] == xs[1..][k - 1];
      if present(DevicePath(xs[0].deviceName)) then [xs[0]] + rest else rest
  }

  /** `sub` is `xs` with some elements left out and the others in their order. */
  predicate IsSubsequence(sub: seq<IoStats>, xs: seq<IoStats>)
    decreases |xs|
  {
    if sub == [] then true
    else if xs == [] then false
    else if sub[0] == xs[0] then IsSubsequence(sub[1..], xs[1..])
    else IsSubsequence(sub, xs[1..])
  }

  lemma {:induction false} KeepPresentIsSubsequence(xs: seq<IoStats>, present: string -> bool)
    ensures IsSubsequence(KeepPresent(xs, present), xs)
    decreases |xs|
  {
    if xs != [] {
      KeepPresentIsSubsequence(xs[1..], present);
      var rest := KeepPresent(xs[1..], present);
      if present(DevicePath(xs[0].deviceName)) {
        assert ([xs[0]] + rest)[1..] == rest;
      } else {
        SubsequenceOfTail(rest, xs);
      }
    }
  }

  /** The filter keeps every copy of a present device's record and no copy of any
      other: it changes no record's multiplicity except to drop it. */
  lemma {:induction false} KeepPresentCounts(xs: seq<IoStats>, present: string -> bool)
    ensures forall x :: multiset(KeepPresent(xs, present))[x]
                     == if present(DevicePath(x.deviceName)) then multiset(xs)[x] else 0
    decreases |xs|
  {
    if xs != [] {
      KeepPresentCounts(xs[1..], present);
      assert xs == [xs[0]] + xs[1..];
    }
  }

  /** A subsequence of a sequence's tail is a subsequence of the sequence. */
  lemma {:induction false} SubsequenceOfTail(sub: seq<IoStats>, xs: seq<IoStats>)
    requires xs != [] && IsSubsequence(sub, xs[1..])
    ensures IsSubsequence(sub, xs)
    decreases |xs|, 0
  {
    if sub != [] && sub[0] == xs[0] {
      SubsequenceDropHead(sub, xs[1..]);
    }
  }

  /** Leaving out the first element of a subsequence leaves a subsequence. */
  lemma {:induction false} SubsequenceDropHead(sub: seq<IoStats>, xs: seq<IoStats>)
    requires sub != [] && IsSubsequence(sub, xs)
    ensures IsSubsequence(sub[1..], xs)
    decreases |xs|, 1
  {
    assert xs != [];
    if sub[0] == xs[0] {
      SubsequenceOfTail(sub[1..], xs);
    } else {
      SubsequenceDropHead(sub, xs[1..]);
      SubsequenceOfTail(sub[1..], xs);
    }
  }

  /** Some record's name holds a NUL character. */
  predicate AnyNulName(xs: seq<IoStats>) {
    exists k :: 0 <= k < |xs| && '\0' in xs[k].deviceName
  }

  /** What the physical reader makes of a line the plain reader turns into record `x`. */
  function PhysicalOutcome(x: IoStats, present: string -> bool): LineOutcome {
    if '\0' in x.deviceName then Fail(NulInPath)
    else if !present(DevicePath(x.deviceName)) then Skip
    else Record(x)
  }

  /**
   * Line by line, the physical reader agrees with the plain one: a skipped line is
   * skipped; a record is kept when its descriptor is reachable, skipped when not, and
   * an error when its name holds a NUL character.
   */
  lemma PhysicalLineIsFiltered(line: string, present: string -> bool)
    requires DecodeLine(line).Record? || DecodeLine(line).Skip?
    ensures DecodeLine(line).Skip? ==> DecodePhysicalLine(line, present).Skip?
    ensures DecodeLine(line).Record? ==>
      DecodePhysicalLine(line, present) == PhysicalOutcome(DecodeLine(line).stats, present)
  {
    match SelectFields(line)
    case TooFewFields =>
    case Incomplete =>
    case Fields(name, sectorsRead, sectorsWritten) =>
      NulInDevicePath(name);
  }

  lemma FilterStep(x: IoStats, ys: seq<IoStats>, present: string -> bool)
    ensures Then(PhysicalOutcome(x, present),
                 if AnyNulName(ys) then Err(NulInPath) else Ok(KeepPresent(ys, present)))
         == if AnyNulName([x] + ys) then Err(NulInPath) else Ok(KeepPresent([x] + ys, present))
  {
    var xs := [x] + ys;
    assert xs[1..] == ys;
    if '\0' !in x.deviceName {
      assert AnyNulName(xs) <==> AnyNulName(ys) by {
        if AnyNulName(xs) {
          var k :| 0 <= k < |xs| && '\0' in xs[k].deviceName;
          assert ys[k - 1] == xs[k];
        }
        if AnyNulName(ys) {
          var k :| 0 <= k < |ys| && '\0' in ys[k].deviceName;
          assert xs[k + 1] == ys[k];
        }
      }
    } else {
      assert '\0' in xs[0].deviceName;
    }
  }

  /**
   * When `get_iostats` returns `Ok(xs)` on a file, `get_iostats_physical` on the same
   * file and the same sysfs returns `xs` restricted to the devices whose descriptor is
   * reachable, names untouched and order kept, unless some name in `xs` holds a NUL
   * character, in which case it returns that error. Nothing is claimed when
   * `get_iostats` fails: on a read failure the physical reader fails too, unless a NUL
   * name stops it earlier, and on a malformed count it may return an error or records
   * instead of the panic (`DecodePhysicalLine` gives the per-line order).
   */
  lemma {:induction false} PhysicalIsFilteredAll(steps: seq<ReadStep>, present: string -> bool)
    requires Collect(steps, AllDevices).Ok?
    ensures var xs := Collect(steps, AllDevices).stats;
      Collect(steps, PhysicalOnly(present))
        == if AnyNulName(xs) then Err(NulInPath) else Ok(KeepPresent(xs, present))
    decreases |steps|
  {
    var all, phys := AllDevices, PhysicalOnly(present);
    if steps != [] && steps[0].Chunk? && steps[0].text != [] {
      var text := steps[0].text;
      var tailAll := Collect(steps[1..], all);
      assert Collect(steps, all) == Then(DecodeLine(text), tailAll);
      assert Collect(steps, phys) == Then(DecodePhysicalLine(text, present), Collect(steps[1..], phys));
      assert tailAll.Ok?;
      PhysicalIsFilteredAll(steps[1..], present);
      PhysicalLineIsFiltered(text, present);
      if DecodeLine(text).Record? {
        var x := DecodeLine(text).stats;
        assert Collect(steps, all).stats == [x] + tailAll.stats;
        FilterStep(x, tailAll.stats, present);
      }
    }
  }

  /** A line the reader handles without aborting: at least ten columns, and if it has
      fourteen, sector counts that convert. */
  predicate CleanLine(line: string) {
    var ts := Tokens(line);
    10 <= |ts| && (14 <= |ts| ==> ConvertibleCount(ts[5]) && ConvertibleCount(ts[9]))
  }

  /** The record the procfs-diskstats layout calls for on a complete line: name in
      column 2, sectors read in column 5, sectors written in column 9, in bytes. */
  function RecordOf(ts: seq<string>): IoStats
    requires 14 <= |ts| && ConvertibleCount(ts[5]) && ConvertibleCount(ts[9])
  {
    IoStats(ts[2], SectorSize * ParseI64(ts[5]).value, SectorSize * ParseI64(ts[9]).value)
  }

  function RecordOfLine(line: string): IoStats
    requires CleanLine(line) && 14 <= |Tokens(line)|
  {
    RecordOf(Tokens(line))
  }

  /** The number of lines with at least fourteen columns. */
  function CompleteLines(lines: seq<string>): nat {
    if lines == [] then 0
    else (if 14 <= |Tokens(lines[0])| then 1 else 0) + CompleteLines(lines[1..])
  }

  /** Reference decoding of a clean file: the record of each complete line, in order. */
  function Expected(lines: seq<string>): (r: seq<IoStats>)
    requires forall i :: 0 <= i < |lines| ==> CleanLine(lines[i])
    ensures |r| == CompleteLines(lines)
  {
    if lines == [] then []
    else
      var rest := Expected(lines[1..]);
      assert forall k :: 1 <= k < |lines| ==> lines[k] == lines[1..][k - 1];
      (if 14 <= |Tokens(lines[0])| then [RecordOfLine(lines[0])] else []) + rest
  }

  /** When every line is complete, the reference decoding has one record per line and
      record `k` is line `k`'s. */
  lemma {:induction false} ExpectedAllComplete(lines: seq<string>)
    requires forall i :: 0 <= i < |lines| ==> CleanLine(lines[i]) && 14 <= |Tokens(lines[i])|
    ensures |Expected(lines)| == |lines|
    ensures forall k :: 0 <= k < |lines| ==> Expected(lines)[k] == RecordOfLine(lines[k])
  {
    if lines != [] {
      assert forall k :: 1 <= k < |lines| ==> lines[k] == lines[1..][k - 1];
      ExpectedAllComplete(lines[1..]);
      var rest := Expected(lines[1..]);
      assert Expected(lines) == [RecordOfLine(lines[0])] + rest;
    }
  }

  /** The file as successive `read_line` results: the lines, then end of file. */
  function AsReads(lines: seq<string>): (steps: seq<ReadStep>)
    ensures |steps| == |lines| && forall i :: 0 <= i < |lines| ==> steps[i] == Chunk(lines[i])
  {
    if lines == [] then [] else [Chunk(lines[0])] + AsReads(lines[1..])
  }

  /**
   * On a file of non-empty clean lines `get_iostats` returns one record per line
   * with at least fourteen columns, in file order, and nothing for the others;
   * an empty file gives no records.
   */
  lemma {:induction false} CleanFileDecodes(lines: seq<string>)
    requires forall i :: 0 <= i < |lines| ==> lines[i] != [] && CleanLine(lines[i])
    ensures Collect(AsReads(lines), AllDevices) == Ok(Expected(lines))
    decreases |lines|
  {
    if lines != [] {
      var steps := AsReads(lines);
      assert steps[1..] == AsReads(lines[1..]);
      CleanFileDecodes(lines[1..]);
      assert Collect(steps, AllDevices) == Then(DecodeLine(lines[0]), Collect(steps[1..], AllDevices));
      assert CleanLine(lines[0]);
      if 14 <= |Tokens(lines[0])| {
        assert DecodeLine(lines[0]) == Record(RecordOfLine(lines[0]));
      } else {
        assert DecodeLine(lines[0]) == Skip;
      }
    }
  }

  /** The reads up to the end of a prefix contain no end-of-file marker. */
  predicate NoEndOfFile(steps: seq<ReadStep>) {
    forall i :: 0 <= i < |steps| ==> steps[i] != Chunk([])
  }

  /** The outcome of a file made of two parts read one after the other. */
  function Sequence(first: Outcome, second: Outcome): Outcome {
    if first.Ok? then Prepend(first.stats, second) else first
  }

  /**
   * Lines are decoded independently: reading `a` then `b` gives what `a` gives
   * followed by what `b` gives, so no line's record depends on an earlier line.
   */
  lemma {:induction false} CollectAppend(a: seq<ReadStep>, b: seq<ReadStep>, mode: Mode)
    requires NoEndOfFile(a)
    ensures Collect(a + b, mode) == Sequence(Collect(a, mode), Collect(b, mode))
    decreases |a|
  {
    if a == [] {
      assert a + b == b;
    } else {
      assert (a + b)[0] == a[0];
      assert (a + b)[1..] == a[1..] + b;
      if a[0].Chunk? {
        assert a[0].text != [];
        CollectAppend(a[1..], b, mode);
        var r := Collect(b, mode);
        var tail := Collect(a[1..], mode);
        match Decode(mode, a[0].text)
        case Record(x) =>
          if tail.Ok? {
            PrependTwice([x], tail.stats, r);
          }
        case Skip =>
        case Abort(_) =>
        case Fail(_) =>
      }
    }
  }
}
