/**
 * The Linux reader of `/proc/diskstats`: `get_iostats` and
 * `get_iostats_physical` in src/disks/sys/linux/iostats.rs.
 *
 * Each line of the file describes one block device or partition as
 * white-space separated columns (the kernel ABI document procfs-diskstats):
 * major, minor, device name, reads completed, reads merged, sectors read,
 * time reading, writes completed, writes merged, sectors written, and so on,
 * fourteen columns or more in current kernels.
 */
module Diskstats {
  import opened Options
  import opened SplitWhitespace
  import opened DecimalI64

  /** The kernel counts transfers in sectors of 512 bytes. */
  const SectorSize: int := 512

  /** `IoStats { device_name, bytes_read, bytes_wrtn }`. */
  datatype IoStats = IoStats(deviceName: string, bytesRead: int, bytesWritten: int)

  /** Why a call aborts instead of returning: which `unwrap` or which `i64` product failed. */
  datatype PanicCause =
    | MissingField   // `fields.nth(..).unwrap()` on a line with fewer than ten tokens
    | NotAnInteger   // `parse::<i64>().unwrap()` on a sector count that is not an i64
    | Overflow       // the sector count times 512 leaves the i64 range

  /** The `std::io::Error` values the two readers return. */
  datatype IoError =
    | OpenFailed     // `File::open("/proc/diskstats")` failed
    | ReadFailed     // `read_line` failed
    | NulInPath      // `CString::new` refused a device path holding a NUL character

  /** What a call ends with: `Ok(records)`, `Err(error)`, or a panic. */
  datatype Outcome = Ok(stats: seq<IoStats>) | Err(error: IoError) | Panicked(cause: PanicCause)

  /** What one line contributes. */
  datatype LineOutcome = Record(stats: IoStats) | Skip | Abort(cause: PanicCause) | Fail(error: IoError)

  /** One `read_line` call: the text it appended (empty at end of file) or an error. */
  datatype ReadStep = Chunk(text: string) | ReadFailure

  /** `/proc/diskstats` as the reader sees it: either it cannot be opened, or the successive
      results of `read_line` until the end of the file. */
  datatype ProcFile = Unopenable | Opened(steps: seq<ReadStep>)

  /** Which reader: every line, or only devices whose sysfs descriptor is reachable.
      `present(path)` stands for `libc::access(path, F_OK) == 0`. */
  datatype Mode = AllDevices | PhysicalOnly(present: string -> bool)

  /** The three columns the reader takes from a line, or why it takes none. */
  datatype Selection =
    | TooFewFields
    | Incomplete
    | Fields(name: string, sectorsRead: string, sectorsWritten: string)

  /**
   * `fields.nth(2)`, `fields.nth(2)`, `fields.nth(3)` and `fields.count() < 4`
   * on `line.split_whitespace()`. The columns picked are tokens 2, 5 and 9;
   * a line needs ten tokens to get that far and fourteen to be kept.
   */
  function SelectFields(line: string): (sel: Selection)
    ensures sel.TooFewFields? <==> |Tokens(line)| < 10
    ensures sel.Incomplete? <==> 10 <= |Tokens(line)| < 14
    ensures sel.Fields? <==> 14 <= |Tokens(line)|
    ensures sel.Fields? ==>
      sel == Fields(Tokens(line)[2], Tokens(line)[5], Tokens(line)[9])
  {
    var (name, afterName) := Nth(Split(line), 2);
    var (read, afterRead) := Nth(afterName, 2);
    var (written, afterWritten) := Nth(afterRead, 3);
    if name.None? || read.None? || written.None? then TooFewFields
    else if Count(afterWritten) < 4 then Incomplete
    else Fields(name.value, read.value, written.value)
  }

  /** A sector-count column the reader can convert: it parses as an `i64` and
      512 times it is still an `i64`. */
  predicate ConvertibleCount(tok: string) {
    ParseI64(tok).Some? && InI64(SectorSize * ParseI64(tok).value)
  }

  /** `tok.parse::<i64>().unwrap() * 512`, an overflowing product aborting as `i64`
      arithmetic with overflow checks does. */
  function SectorsToBytes(tok: string): (r: Result<int, PanicCause>)
    ensures r.Success? <==> ConvertibleCount(tok)
    ensures r.Success? ==> r.value == SectorSize * ParseI64(tok).value
    ensures r.Success? ==> InI64(r.value) && r.value % SectorSize == 0
    ensures r.Failure? ==> r.error == (if ParseI64(tok).None? then NotAnInteger else Overflow)
  {
    match ParseI64(tok)
    case None => Failure(NotAnInteger)
    case Some(n) =>
      var bytes := n * SectorSize;
      if InI64(bytes) then Success(bytes) else Failure(Overflow)
  }

  /** The record built from the selected columns: the name as it stands, then the read
      count and the written count converted in that order. */
  function ToRecord(name: string, sectorsRead: string, sectorsWritten: string): (out: LineOutcome)
    ensures out.Record? || out.Abort?
    ensures out.Record? <==> ConvertibleCount(sectorsRead) && ConvertibleCount(sectorsWritten)
    ensures out.Record? ==> out.stats == IoStats(name, SectorSize * ParseI64(sectorsRead).value,
                                                      SectorSize * ParseI64(sectorsWritten).value)
    ensures out.Abort? ==> out.cause != MissingField
  {
    match SectorsToBytes(sectorsRead)
    case Failure(cause) => Abort(cause)
    case Success(bytesRead) =>
      match SectorsToBytes(sectorsWritten)
      case Failure(cause) => Abort(cause)
      case Success(bytesWritten) => Record(IoStats(name, bytesRead, bytesWritten))
  }

  /** A record whose counters are byte counts the reader can produce: 512 times an `i64`,
      itself an `i64`; and whose name is one white-space free token. */
  predicate WellFormedRecord(x: IoStats) {
    IsToken(x.deviceName)
    && InI64(x.bytesRead) && x.bytesRead % SectorSize == 0
    && InI64(x.bytesWritten) && x.bytesWritten % SectorSize == 0
  }

  /** The body of the `get_iostats` loop for one line. */
  function DecodeLine(line: string): (out: LineOutcome)
    ensures !out.Fail?
    ensures out == Abort(MissingField) <==> |Tokens(line)| < 10
    ensures out.Skip? <==> 10 <= |Tokens(line)| < 14
    ensures out.Record? <==>
      14 <= |Tokens(line)| && ConvertibleCount(Tokens(line)[5]) && ConvertibleCount(Tokens(line)[9])
    ensures out.Record? ==>
      out.stats == IoStats(Tokens(line)[2], SectorSize * ParseI64(Tokens(line)[5]).value,
                                            SectorSize * ParseI64(Tokens(line)[9]).value)
    ensures out.Record? ==> WellFormedRecord(out.stats)
  {
    match SelectFields(line)
    case TooFewFields => Abort(MissingField)
    case Incomplete => Skip
    case Fields(name, sectorsRead, sectorsWritten) => ToRecord(name, sectorsRead, sectorsWritten)
  }

  /** `name.replace("/", "!")`: device names such as `cciss/c0d0` appear in sysfs with
      `!` in place of each `/`. */
  function ReplaceSlashes(name: string): (r: string)
    ensures |r| == |name|
    ensures forall i :: 0 <= i < |name| ==> r[i] == (if name[i] == '/' then '!' else name[i])
  {
    if name == [] then []
    else [if name[0] == '/' then '!' else name[0]] + ReplaceSlashes(name[1..])
  }

  /** `format!("/sys/block/{}/device", name.replace("/", "!"))`. */
  function DevicePath(name: string): string {
    "/sys/block/" + ReplaceSlashes(name) + "/device"
  }

  /** The rewrite keeps NUL characters where they were, so the path holds one exactly
      when the name does: `CString::new` fails on the kernel's name, not on the rewrite. */
  lemma NulInDevicePath(name: string)
    ensures '\0' in DevicePath(name) <==> '\0' in name
  {
    var path := DevicePath(name);
    var r := ReplaceSlashes(name);
    assert path == "/sys/block/" + r + "/device";
    if '\0' in name {
      var i :| 0 <= i < |name| && name[i] == '\0';
      assert path[11 + i] == r[i];
    }
    if '\0' in path {
      var j :| 0 <= j < |path| && path[j] == '\0';
      assert 11 <= j < 11 + |r|;
      assert r[j - 11] == '\0';
      assert name[j - 11] == '\0';
    }
  }

  /**
   * The body of the `get_iostats_physical` loop for one line: the same column selection,
   * then the sysfs check, then the conversion (`PhysicalChecksBeforeParsing` states the
   * outcome for every line).
   */
  function DecodePhysicalLine(line: string, present: string -> bool): (out: LineOutcome)
    ensures out.Fail? ==> out.error == NulInPath
    ensures out == Abort(MissingField) <==> |Tokens(line)| < 10
    ensures out.Record? ==> out == DecodeLine(line)
    ensures out.Record? ==> present(DevicePath(out.stats.deviceName)) && '\0' !in out.stats.deviceName
  {
    match SelectFields(line)
    case TooFewFields => Abort(MissingField)
    case Incomplete => Skip
    case Fields(name, sectorsRead, sectorsWritten) =>
      var path := DevicePath(name);
      if '\0' in path then Fail(NulInPath)
      else if !present(path) then Skip
      else ToRecord(name, sectorsRead, sectorsWritten)
  }

  /**
   * On a line with at least fourteen columns, `CString::new` and `access` run before
   * either count is parsed: a NUL in the name is an error and an absent device is
   * skipped, whatever the counts hold; only a present device's line reaches the plain
   * decoder. A shorter line fares exactly as in the plain decoder.
   */
  lemma PhysicalChecksBeforeParsing(line: string, present: string -> bool)
    ensures |Tokens(line)| < 14 ==> DecodePhysicalLine(line, present) == DecodeLine(line)
    ensures 14 <= |Tokens(line)| ==>
      DecodePhysicalLine(line, present)
        == if '\0' in Tokens(line)[2] then Fail(NulInPath)
           else if !present(DevicePath(Tokens(line)[2])) then Skip
           else DecodeLine(line)
  {
    if 14 <= |Tokens(line)| {
      NulInDevicePath(Tokens(line)[2]);
    }
  }

  function Decode(mode: Mode, line: string): LineOutcome {
    match mode
    case AllDevices => DecodeLine(line)
    case PhysicalOnly(present) => DecodePhysicalLine(line, present)
  }

  /** Records gathered before a later outcome: kept on `Ok`, discarded on an error or a panic. */
  function Prepend(xs: seq<IoStats>, rest: Outcome): Outcome {
    if rest.Ok? then Ok(xs + rest.stats) else rest
  }

  /** How one line's outcome combines with what the rest of the file gives. */
  function Then(line: LineOutcome, rest: Outcome): Outcome {
    match line
    case Record(x) => Prepend([x], rest)
    case Skip => rest
    case Abort(cause) => Panicked(cause)
    case Fail(error) => Err(error)
  }

  /**
   * The `while file.read_line(&mut line)? != 0` loop over the rest of the file:
   * stop at end of file, return a read error, otherwise combine the line's
   * outcome with what the following lines give.
   */
  function Collect(steps: seq<ReadStep>, mode: Mode): Outcome
    decreases |steps|
  {
    if steps == [] then Ok([])
    else match steps[0]
      case ReadFailure => Err(ReadFailed)
      case Chunk(text) =>
        if text == [] then Ok([]) else Then(Decode(mode, text), Collect(steps[1..], mode))
  }

  lemma CollectAt(steps: seq<ReadStep>, i: nat, mode: Mode)
    requires i < |steps| && steps[i].Chunk? && steps[i].text != []
    ensures Collect(steps[i..], mode) == Then(Decode(mode, steps[i].text), Collect(steps[i + 1..], mode))
  {
    assert steps[i..][1..] == steps[i + 1..];
  }

  /** What a whole call returns, opening the file first. */
  function ReadDiskstats(file: ProcFile, mode: Mode): Outcome {
    match file
    case Unopenable => Err(OpenFailed)
    case Opened(steps) => Collect(steps, mode)
  }

  lemma PrependTwice(xs: seq<IoStats>, ys: seq<IoStats>, rest: Outcome)
    ensures Prepend(xs, Prepend(ys, rest)) == Prepend(xs + ys, rest)
  {
    if rest.Ok? {
      assert xs + (ys + rest.stats) == (xs + ys) + rest.stats;
    }
  }

  lemma PhysicalFieldsOutcome(text: string, present: string -> bool, name: string,
                              sectorsRead: string, sectorsWritten: string)
    requires SelectFields(text) == Fields(name, sectorsRead, sectorsWritten)
    ensures Decode(PhysicalOnly(present), text)
         == if '\0' in DevicePath(name) then Fail(NulInPath)
            else if !present(DevicePath(name)) then Skip
            else ToRecord(name, sectorsRead, sectorsWritten)
  {
  }

  /** `get_iostats`: one record per line with at least fourteen columns, in file order. */
  method GetIoStats(file: ProcFile) returns (result: Outcome)
    ensures result == ReadDiskstats(file, AllDevices)
  {
    if file.Unopenable? {
      return Err(OpenFailed);
    }
    var steps := file.steps;
    var viostats: seq<IoStats> := [];
    var line: string := [];
    var i := 0;
    while i < |steps| && steps[i] != Chunk([])
      invariant i <= |steps|
      invariant line == []
      invariant Collect(steps, AllDevices) == Prepend(viostats, Collect(steps[i..], AllDevices))
      decreases |steps| - i
    {
      if steps[i].ReadFailure? {
        return Err(ReadFailed);
      }
      var text := steps[i].text;
      // `read_line` appends to the buffer, which every path below clears again.
      line := line + text;
      assert line == text;
      CollectAt(steps, i, AllDevices);
      i := i + 1;
      match SelectFields(line)
      case TooFewFields =>
        assert Decode(AllDevices, text) == Abort(MissingField);
        return Panicked(MissingField);
      case Incomplete =>
        assert Decode(AllDevices, text) == Skip;
        line := [];
      case Fields(name, sectorsRead, sectorsWritten) =>
        var record := ToRecord(name, sectorsRead, sectorsWritten);
        assert Decode(AllDevices, text) == record;
        if record.Abort? {
          return Panicked(record.cause);
        }
        PrependTwice(viostats, [record.stats], Collect(steps[i..], AllDevices));
        viostats := viostats + [record.stats];
        line := [];
    }
    return Ok(viostats);
  }

  /** `get_iostats_physical`: as `get_iostats`, keeping only devices whose
      `/sys/block/<name>/device` is reachable. */
  method GetIoStatsPhysical(file: ProcFile, present: string -> bool) returns (result: Outcome)
    ensures result == ReadDiskstats(file, PhysicalOnly(present))
  {
    if file.Unopenable? {
      return Err(OpenFailed);
    }
    var steps := file.steps;
    var viostats: seq<IoStats> := [];
    var line: string := [];
    var i := 0;
    while i < |steps| && steps[i] != Chunk([])
      invariant i <= |steps|
      invariant line == []
      invariant Collect(steps, PhysicalOnly(present))
             == Prepend(viostats, Collect(steps[i..], PhysicalOnly(present)))
      decreases |steps| - i
    {
      if steps[i].ReadFailure? {
        return Err(ReadFailed);
      }
      var text := steps[i].text;
      line := line + text;
      assert line == text;
      CollectAt(steps, i, PhysicalOnly(present));
      i := i + 1;
      match SelectFields(line)
      case TooFewFields =>
        assert Decode(PhysicalOnly(present), text) == Abort(MissingField);
        return Panicked(MissingField);
      case Incomplete =>
        assert Decode(PhysicalOnly(present), text) == Skip;
        line := [];
      case Fields(name, sectorsRead, sectorsWritten) =>
        var path := DevicePath(name);
        PhysicalFieldsOutcome(text, present, name, sectorsRead, sectorsWritten);
        if '\0' in path {
          assert Decode(PhysicalOnly(present), text) == Fail(NulInPath);
          return Err(NulInPath);
        }
        if !present(path) {
          assert Decode(PhysicalOnly(present), text) == Skip;
          line := [];
        } else {
          var record := ToRecord(name, sectorsRead, sectorsWritten);
          assert Decode(PhysicalOnly(present), text) == record;
          if record.Abort? {
            return Panicked(record.cause);
          }
          PrependTwice(viostats, [record.stats], Collect(steps[i..], PhysicalOnly(present)));
          viostats := viostats + [record.stats];
          line := [];
        }
    }
    return Ok(viostats);
  }
}
