# Throughput: a verified model of the measuring loop

Throughput reads a byte stream, standard input or one accepted TCP
connection, and reports how fast the bytes arrive. At most once per
second, and once more when the stream ends, it prints a three-line
report:

- the total amount transferred, with the number of measuring cycles so far;
- the rate of the last interval;
- the mean of all interval rates.

Each line's caption is padded to 24 columns. Each amount is scaled to
Bytes, KB, MB, GB or TB, with 1024 between units. From the second report
on, the cursor first moves up three lines, so each report overwrites the
one before it. In passthrough mode every byte read is also copied to
stdout, and the reports go to stderr instead.

This project models the core of `src/main.rs`:

- the `TransferInfo` accumulator;
- the read/measure/report loop `measure_reader`;
- `print_info`, `print_fixed_width`, `term_clear_line`, `term_move_up` and `byte_to_mem_units`.

It proves what these guarantee.

Layout, one module per concern:

- `units.dfy` (**Units**): `byte_to_mem_units` on exact reals.
- `terminal.dfy` (**Terminal**): output streams as sequences of single write calls (`Out`), the two ANSI sequences, and `print_fixed_width`.
- `report.dfy` (**Report**): `TransferInfo`, the report layout `ReportEvents`, and `print_info`.
- `sampling.dfy` (**Sampling**): the loop as a specification on values.
  - The reader is a finite script of read results.
  - `ReadStep` is one read and `InnerStage` is the inner `for` loop.
  - `Measure` is the timed report; `Run` is the whole outer `loop`.
  - Once the script is used up, the next read would block, and `Run` ends with status `Blocked`.
- `sampling_proofs.dfy` (**SamplingProofs**): reference definitions and the loop invariant.
  - Reference definitions: the bytes read, the data stream, the error stream, the reports, and the part of the script consumed.
  - The invariant is proved to hold at every step of `Run`.
  - The headline lemmas about a run from the start.
- `throughput.dfy` (**Throughput**): the imperative loop. A buffer `array` is filled in place by each read, and both output streams only grow. Every method is proved to compute what the corresponding `Sampling` function specifies. `MeasureReader` also carries the headline guarantees.

## Model

| member | source | states |
|---|---|---|
| Units.MemUnitsCorrect | src/main.rs:315-326 | The chosen unit is the largest one whose threshold the input reaches (Bytes below 1024). The value times that threshold gives back the input. The value is in [1, 1024) for KB, MB and GB, and at least 1 for TB. |
| Units.ConversionExamples | src/main.rs:321-325 | 1023 stays 1023 Bytes; 1024 is 1.0 KB; 1536 is 1.5 KB; 3 MiB is 3.0 MB; 5000 is 5000/1024 KB. |
| Units.UnitMonotone | src/main.rs:321-325 | More bytes never give a smaller unit. |
| Terminal.Decimal | src/main.rs:266-267 | The `{}` rendering of a count is a non-empty run of decimal digits that denotes the count, read most significant first. It has no leading zero, and is one digit exactly when the count is below 10. |
| Terminal.TermMoveUp | src/main.rs:310-313 | The sequence starts with ESC `[` and ends with `A`, and holds no newline. |
| Terminal.MoveUpThree | src/main.rs:262 | The cursor-up written by print_info is exactly ESC `[3A`. |
| Terminal.PrintFixedWidth | src/main.rs:284-299 | The text is written, then one single-space write per column it falls short of; nothing else is written. |
| Terminal.FixedWidthLayout | src/main.rs:289-298 | The padded text fills max(length, columns) characters: the text first, then only spaces. |
| Terminal.FixedWidthPlain | src/main.rs:284-299 | A label and its padding contain no clear-line write and no newline. |
| Report.PrintLine | src/main.rs:265-268 | One report line: the padded caption, the amount with three decimals, a space, the unit name and the suffix, then term_clear_line. |
| Report.PrintInfo | src/main.rs:261-282 | The three lines in order, for the total with its cycle count, the last rate, and total_bps / total_measures. The cursor-up comes first when more than one report has been made. Nothing else is written. |
| Report.ReportLayout | src/main.rs:261-282 | A report begins with the cursor-up exactly when total_measures > 1. It holds exactly three clear-line writes, has newlines only there, and ends with one. |
| Sampling.InnerStage | src/main.rs:209-229 | The inner loop performs at most `iterations` reads, a failed read counting as one. It performs exactly that many unless a zero-byte read ends it or a read blocks. When it ends the stream, its last read was the zero-byte one. It never passes the end of the script and does not touch the report log. |
| Sampling.Run | src/main.rs:207-258 | The outer loop ends within the script. When it returns, it has performed at least one read. |
| SamplingProofs.ReadEffect | src/main.rs:210-228 | One read adds its byte count to both counters. It copies non-empty data to stdout only in passthrough mode, and logs exactly one line to stderr when it fails. It leaves the measure count and the rates alone. |
| SamplingProofs.MeasureEffect | src/main.rs:233-255 | A measure fires only after a whole second or at end of stream. When it fires, it increments total_measures, adds the rate to total_bps, and sends the report to stderr in passthrough mode or to stdout otherwise. It then zeroes last_bps and last_bytes_transferred. Otherwise nothing changes. |
| SamplingProofs.RunConsumes | src/main.rs:207-258 | The loop returns exactly when the stream holds a zero-byte read. It has then performed every read up to and including the first such read, and no more. Without one it performs every read the script offers. |
| SamplingProofs.RunCountsBytes | src/main.rs:212-213 | total_bytes_transferred is the sum of all bytes read. The per-interval counts plus the current interval add up to it. |
| SamplingProofs.RunReports | src/main.rs:233-255 | total_measures is the number of reports, numbered 1, 2, ... in order. total_bps is the sum of the reported rates, so the final average is their mean. The current interval holds the bytes read since the last report. On return, a final report covers every read. |
| SamplingProofs.RunReportInterval | src/main.rs:233-255 | Report i shows, as total, every byte read before it fired. As interval count it shows exactly the bytes read since report i - 1, or since the start. Its total_measures is i + 1 and its total_bps is the sum of the rates of reports 0 to i, so the average it prints is the mean of those rates. |
| SamplingProofs.RunCadence | src/main.rs:207-233 | Every report fires after a whole number of full inner loops of `iterations` reads each. The only exception is the final report at end of stream. |
| SamplingProofs.ErrorOnSecondOfThree | src/main.rs:209-233 | Three reads per measure, with the second read failing and a zero-byte read fourth, and a clock that always shows a whole second. The failed read uses up one iteration. The first report fires after three reads, with both data bytes in its interval. The final report fires after the fourth read, and stderr holds exactly the one error line. |
| SamplingProofs.RunRoutes | src/main.rs:217-242 | Passthrough mode: stdout is exactly the data read, in order, with no report text, and stderr holds three report lines per report. Otherwise: stdout is exactly the sequence of reports and stderr exactly one error line per failed read. |
| SamplingProofs.QuietClockOneReport | src/main.rs:233 | When no whole second ever passes between measures, the only report is the one at end of stream: one report if the loop returns, none if it blocks. |
| SamplingProofs.FiveThousandBytes | src/main.rs:207-258 | Reads of 4096 and 904 bytes, then end of stream, one read per measure, and a clock below a second. The loop returns after three reads with one report on stdout, showing 5000 bytes as 5000/1024 KB. |
| SamplingProofs.DataStreamBytes | src/main.rs:217-218 | The passthrough writes carry exactly the bytes of the successful reads. Their number equals what the counters add up. |
| Throughput.ReadOnce | src/main.rs:210-228 | One `reader.read` into the buffer array and its handling equal ReadStep. It reports end of stream exactly on a zero-byte read. |
| Throughput.InnerLoop | src/main.rs:209-229 | The `for _ in 0..iterations` loop equals InnerStage, including the early `break` at end of stream. |
| Throughput.MeasureStep | src/main.rs:231-255 | The timed measure, report and reset equal Measure. |
| Throughput.OuterIteration | src/main.rs:207-258 | One pass of the outer `loop` either leaves it with the outcome Run gives, or advances in the stream and leaves Run's outcome unchanged. |
| Throughput.MeasureReader | src/main.rs:194-259 | The loop's final status, counters, streams and read count are those of Run from the default state. From that follows the following. It returns exactly when the source ends, having read exactly that far. total_bytes_transferred is the sum of the bytes read. In passthrough mode stdout is exactly one data write per non-empty read, carrying those bytes and no report text, while stderr holds three report lines per report. Otherwise stderr is exactly the read errors. On return a final report has covered every byte. |

## Left out

- The command line, `main`, the TCP listener and the choice of input are I/O set-up. They are outside the loop and not part of this model.
- Time and `bytes_per_second`. `Instant::now()` and the duration arithmetic are replaced by a clock parameter. It gives, for each outer iteration, the whole seconds since the last report and the rate `bytes_per_second` would return. The function's floating-point body is not modelled, and neither are NaN or infinite rates.
- The real reader. An actual read blocks while waiting for data. A script offers finitely many reads; a run that uses them all up ends as `Blocked`, where the program would wait.
- Floating point in general. `f64` is modelled by exact reals. These represent the 1024-power thresholds and the quotients in the examples exactly; rounding is not modelled.
- The `{:.3}` rendering of a number is an abstract `Fixed3` write. Unit names, captions, suffixes and counts are modelled character for character.
- Write failures. A failed write to stdout or stderr, with the resulting "Error while writing …" / "Error while printing output" messages, `exit_err()` and the panics, is not modelled; every write is taken to succeed in full. In particular, the unchecked short `write` in print_fixed_width is taken to write everything.
- Integer width. `usize` counters are unbounded naturals, so an overflow of `total_bytes_transferred` is not modelled.
- Sampling.Run: requires `iterations >= 1`. With 0 iterations the program never reads and never returns, so a run has no finite outcome to describe.
- Report.ReportEvents: requires `total_measures >= 1`. print_info is only ever called after the increment, so the 0/0 average cannot occur.
- SamplingProofs.RunRoutes: in passthrough mode, stderr is stated only through its count of report lines. The interleaving of read-error lines and reports on that stream is not stated.
- Throughput.MeasureReader: states passthrough stderr through the same count only, for the same reason.
- Text is modelled as characters, not bytes. The padding length uses the character count, which equals the byte count for the ASCII captions print_info uses.
- TransferInfo is a value held in a local variable. print_info receives it by `&mut` reference but only reads it, so no aliasing is lost.
