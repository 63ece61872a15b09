# Disk I/O counters from `/proc/diskstats` (sys_metrics, Linux)

This project models the Linux disk-statistics reader of the `sys_metrics`
crate and proves properties about it. The reader has two entry points:

- `get_iostats` opens `/proc/diskstats` and reads it line by line. For every
  line with at least fourteen white-space separated columns it returns an
  `IoStats { device_name, bytes_read, bytes_wrtn }` record, in file order.
- `get_iostats_physical` decodes the file the same way. It keeps a device only
  when `access("/sys/block/<name>/device", F_OK)` succeeds. Before the check,
  every `/` in the name becomes `!`.

Each line is split with `split_whitespace`. The reader then calls `nth(2)`,
`nth(2)`, `nth(3)` and `count()` on that iterator. So the device name is
column 2, the sectors read are column 5 and the sectors written are column 9
(the procfs-diskstats layout). A line needs ten columns to survive the three
`unwrap`s. It needs fourteen to pass the `count() < 4` test. Sector counts are
parsed as `i64` and multiplied by 512.

The model is split into these files:

- `split_whitespace.dfy` (module `SplitWhitespace`): `str::split_whitespace`
  over Rust's `char::is_whitespace` set, and the iterator's `next`, `nth` and
  `count`.
- `decimal_i64.dfy` (module `DecimalI64`): `str::parse::<i64>` and the `i64`
  range.
- `iostats.dfy` (module `Diskstats`): the record, the per-line decoders and
  the two reader loops as methods. The readers reuse one line buffer, and the
  methods keep it too; a loop invariant proves it is empty at the start of
  every iteration. Each method is proved equal to one specification function,
  `ReadDiskstats`.
- `iostats_properties.dfy` (module `DiskstatsProperties`): lemmas about that
  specification.
- `iostats_examples.dfy` (module `DiskstatsExamples`): concrete lines.

How the model represents the outside world:

- The file is `Unopenable` or `Opened(steps)`. Each step is one `read_line`
  call: the text it appended, or a read failure. An empty chunk is end of file.
- A call ends in `Ok(records)`, `Err(error)` (open failure, read failure, or
  NUL in a device path) or `Panicked(cause)`. `Panicked` stands for an
  `unwrap` on a missing column or on a non-integer count, and for an `i64`
  product that overflows.
- `access(path, F_OK) == 0` is a parameter `present: string -> bool`.

Two points where the code is easy to misread; the model follows the code:

- The comment at src/disks/sys/linux/iostats.rs:30 says lines with fewer than
  14 fields are skipped. In the code only lines with 10 to 13 tokens are
  skipped. A shorter line, a blank line included, makes `nth(..).unwrap()`
  panic.
- The third `nth` is `nth(3)`, so the written count is column 9, the
  procfs-diskstats "sectors written" column. It is not column 6, the time
  spent reading.

## Model

| member | source | states |
|---|---|---|
| `SplitWhitespace.Tokens` | src/disks/sys/linux/iostats.rs:26 | every token the split yields is non-empty and free of white space |
| `SplitWhitespace.TokensKeepAllOtherCharacters` | src/disks/sys/linux/iostats.rs:26 | the tokens, put back together, are exactly the line's non-white-space characters in order |
| `SplitWhitespace.TokensOfJoinWords` | src/disks/sys/linux/iostats.rs:26 | space-separated tokens, with any white space before and after, split back into exactly those tokens |
| `SplitWhitespace.TokensSkipWhitespace` | src/disks/sys/linux/iostats.rs:26 | leading white space (such as the kernel's column padding) yields no token |
| `SplitWhitespace.Nth` | src/disks/sys/linux/iostats.rs:27-29 | `nth(n)` yields the token `n` places past the cursor and moves the cursor beyond it, or yields nothing when fewer remain and leaves the cursor exhausted |
| `SplitWhitespace.Count` | src/disks/sys/linux/iostats.rs:31 | `count()` is the number of tokens left after the cursor |
| `DecimalI64.ParseI64` | src/disks/sys/linux/iostats.rs:37-38 | a parsed count is in the `i64` range and is negative only when written with `-` |
| `DecimalI64.ParseShowInt` | src/disks/sys/linux/iostats.rs:37-38 | every `i64` written in decimal parses back to itself |
| `DecimalI64.ParseRejectsNonDigit` | src/disks/sys/linux/iostats.rs:37-38 | a count holding a non-digit after its sign does not parse (so its `unwrap` panics) |
| `Diskstats.SelectFields` | src/disks/sys/linux/iostats.rs:26-34 | the `nth`/`count` sequence fails on fewer than 10 tokens and reports incomplete on 10 to 13; otherwise it picks tokens 2, 5 and 9 |
| `Diskstats.SectorsToBytes` | src/disks/sys/linux/iostats.rs:37-38 | succeeds exactly when the count parses and 512 times it fits in `i64`; the result is that product, a multiple of 512; a failure says whether parsing or the product failed |
| `Diskstats.ToRecord` | src/disks/sys/linux/iostats.rs:35-39 | a record exactly when both counts convert, holding the name unchanged and 512 times each count; never a missing-column panic |
| `Diskstats.DecodeLine` | src/disks/sys/linux/iostats.rs:26-40 | fewer than 10 tokens panics; 10 to 13 is skipped without error; 14 or more gives `IoStats(token 2, 512 × token 5, 512 × token 9)` when both counts convert; any record is well formed |
| `Diskstats.ReplaceSlashes` | src/disks/sys/linux/iostats.rs:70-71 | same length; each `/` becomes `!` and every other character stays |
| `Diskstats.NulInDevicePath` | src/disks/sys/linux/iostats.rs:71 | the sysfs path holds a NUL exactly when the device name does |
| `Diskstats.DecodePhysicalLine` | src/disks/sys/linux/iostats.rs:60-81 | panics on exactly the same short lines; its only error is the NUL-in-path one; a record it keeps is the plain decoder's record, for a device that is present and has no NUL in its name |
| `Diskstats.PhysicalChecksBeforeParsing` | src/disks/sys/linux/iostats.rs:60-81 | for every line: below 14 columns the physical decoder does what the plain one does; from 14 on, a NUL in the name is an error and an absent device is skipped whatever the counts hold, and only a present device's line gets the plain decoder's outcome |
| `Diskstats.GetIoStats` | src/disks/sys/linux/iostats.rs:18-44 | the loop returns exactly `ReadDiskstats(file, AllDevices)`, with the line buffer empty at the start of every iteration |
| `Diskstats.GetIoStatsPhysical` | src/disks/sys/linux/iostats.rs:53-85 | the loop returns exactly `ReadDiskstats(file, PhysicalOnly(present))`, with the line buffer empty at the start of every iteration |
| `DiskstatsProperties.CollectedRecordsWellFormed` | src/disks/sys/linux/iostats.rs:35-39 | every record either reader returns has a one-token name and byte counts that are `i64` multiples of 512 |
| `DiskstatsProperties.PhysicalRecordsPresent` | src/disks/sys/linux/iostats.rs:71-80 | every record the physical reader returns names a present device whose name has no NUL |
| `DiskstatsProperties.KeepPresent` | src/disks/sys/linux/iostats.rs:72-75 | every kept record belongs to a present device, and every present device's record is kept |
| `DiskstatsProperties.KeepPresentCounts` | src/disks/sys/linux/iostats.rs:72-75 | the filter keeps every copy of a present device's record and no copy of any other |
| `DiskstatsProperties.KeepPresentIsSubsequence` | src/disks/sys/linux/iostats.rs:72-75 | the filtered records are a subsequence of the originals, order kept |
| `DiskstatsProperties.PhysicalLineIsFiltered` | src/disks/sys/linux/iostats.rs:60-81 | per line, the physical reader skips what the plain reader skips; a plain record is kept if present, skipped if absent, and an error if its name has a NUL |
| `DiskstatsProperties.PhysicalIsFilteredAll` | src/disks/sys/linux/iostats.rs:53-85 | when `get_iostats` returns `Ok(xs)`, `get_iostats_physical` on the same file returns `xs` filtered by presence, names unrewritten and order kept; it returns the NUL error exactly when some name in `xs` holds one; nothing is claimed when `get_iostats` fails |
| `DiskstatsProperties.Expected` | src/disks/sys/linux/iostats.rs:24-43 | the reference decoding has one record per line of at least 14 columns |
| `DiskstatsProperties.ExpectedAllComplete` | src/disks/sys/linux/iostats.rs:24-43 | when all lines are complete, the reference decoding has one record per line and record k is line k's |
| `DiskstatsProperties.CleanFileDecodes` | src/disks/sys/linux/iostats.rs:18-44 | on a file whose lines have at least 10 columns and convertible counts, `get_iostats` returns the reference decoding: in order, one record per complete line, empty for an empty file |
| `DiskstatsProperties.CollectAppend` | src/disks/sys/linux/iostats.rs:23-41 | reading two parts of a file gives the first part's outcome followed by the second's, so no line's record depends on earlier lines |
| `DiskstatsExamples.KernelLineColumns` | src/disks/sys/linux/iostats.rs:26 | a line printed as `%4d %7d` followed by single-space-separated columns, ending in a newline, splits back into exactly its columns, whatever the padding |
| `DiskstatsExamples.PaddedSdaLine` | src/disks/sys/linux/iostats.rs:26 | the `sda` line, with the major and minor numbers padded to 4 and 7 characters as the kernel prints them, splits into its 14 columns |
| `DiskstatsExamples.SdaLineDecodes` | src/disks/sys/linux/iostats.rs:26-39 | the `sda` line with 1600 sectors read and 0 written gives `IoStats("sda", 819200, 0)`, and a file of that line gives that one record |
| `DiskstatsExamples.BlankLineAborts` | src/disks/sys/linux/iostats.rs:27 | a blank line after the `sda` line panics, and the record already gathered is lost |
| `DiskstatsExamples.TenColumnLineSkipped` | src/disks/sys/linux/iostats.rs:30-34 | a 10-column line yields nothing and no error, and the next line is still read |
| `DiskstatsExamples.PhysicalChecksSysfsBeforeParsing` | src/disks/sys/linux/iostats.rs:71-79 | take a line whose read count is not a number, for a device that is absent: `get_iostats` panics on it, but `get_iostats_physical` skips it |
| `DiskstatsExamples.CcissPath` | src/disks/sys/linux/iostats.rs:70-71 | `cciss/c0d0` is looked up as `/sys/block/cciss!c0d0/device` |
| `DiskstatsExamples.SlashedNameLooksUpBangPath` | src/disks/sys/linux/iostats.rs:70-80 | when that path is present, the physical reader returns the record under the original name `cciss/c0d0` |

## Left out

- Opening and reading the file are not modelled as I/O. `File::open` and `read_line` become the abstract outcomes `Unopenable` and `ReadFailure`. Invalid UTF-8, which makes `read_line` fail, counts as a `ReadFailure`.
- The `BufReader` capacity (2048) and the line buffer's initial capacity (512) are left out. They affect performance only.
- `libc::access(path, F_OK)` is a foreign system call. It is the parameter `present`, so sysfs permissions, symbolic links and races are not modelled.
- `i64` overflow of `count * 512` is modelled with overflow checks on, as a panic. A release build without overflow checks would wrap around instead; that variant is not modelled.
- A panic is the outcome `Panicked(cause)`. Unwinding and process termination are not modelled. The model does not distinguish the kinds of `ParseIntError`.
- `split_whitespace` is lazy. The model splits the whole line first; the tokens and their order are the same.
- The macOS reader mentioned in the doc comments is not part of this model.
