# bevy_benchy in Dafny

bevy_benchy compares Bevy's frame rate across commits. For every configured
commit it checks the commit out, applies the fixed patches, and runs every
configured bench (an example plus arguments) with `cargo run`. It reads the
average fps from the run's stderr and keeps one figure per (bench, commit)
pair. At the end it prints a markdown table: one row per commit, one column
per bench. Every cell after the baseline row also shows a trend glyph and
the percentage change against the first commit.

The project models three parts of `src/main.rs` and the records in `src/config.rs`:

- `wrappers.dfy`: `Option`, `Result` and `Outcome`, which is a unit result that may fail, like `anyhow::Result<()>`.
- `configuration.dfy`: `Bench`, `Commit` and `Config`. Equality is structural over every field, labels included, as the derived `Eq`/`Hash` make it.
- `decimal.dfy`: decimal text.
  - `str::parse::<f32>` on texts made of digits and dots, with the exact decimal value.
  - `format!("{}", n)` for a natural number.
- `fps.dfy`: `get_fps`. The pattern `fps.*?avg ([\d\.]+)` is modelled by hand:
  - a scanner: `FindAvg` for the lazy `.*?`, `RunEnd` for the greedy capture, `MatchAt`, `NextMatch`, and `Matches` for `captures_iter`;
  - a declarative reading of one match, `IsMatch`, that the scanner is proved against;
  - the last-match contract of `get_fps` and its two error exits.
- `table.dfy`: `print_markdown_table`. It is written as methods that append to a `Stdout` object, with one method per loop and loop body. Each method is proved to write exactly its part of `Render` of the table's lines. Lemmas then state:
  - the layout;
  - the trend bands;
  - that every line has the same number of columns.
- `driver.dfy`: the body of `main` after the configuration is loaded:
  - the emptiness checks;
  - `write_ci_config`;
  - the commit and bench loops, with the argument vector of `cargo`;
  - the results map;
  - the final print.

  The processes and the file write are function-valued fields of a `Host`. `Collect` is the loops' specification as a function. `CollectResults` holds the imperative loops, proved equal to it, and `Execute` is proved to return `Collect`'s outcome.

In the driver, `measure` is a ghost parameter: what one run reports for a bench at a commit. The precondition `MeasuresOn(host, measure)` ties it to `Measure`. `Measure` runs cargo on the host and then `GetFps` on stderr. `Execute` instantiates `measure` with `MeasureOn(host)`, so its contract is about the real measurement.

## Model

| member | source | states |
|---|---|---|
| Decimal.NatToDecimal | src/main.rs:91 | `{}` on the frame count gives at least one digit, has no leading zero, and denotes the number again |
| Decimal.ParseFloat | src/main.rs:182 | a parsed value is never negative |
| Decimal.ParseFloatIntegerPart | src/main.rs:182 | the digits before the dot are the integer part of the value: it is at least their value and less than one more |
| Decimal.ParseFloatAccepts | src/main.rs:182 | the float parse succeeds exactly on `Digit+`, `Digit+ . Digit*` and `Digit* . Digit+` |
| Decimal.FloatLiteralByDots | src/main.rs:182 | over digits and dots, a capture parses exactly when it has a digit and at most one dot |
| Decimal.LoneDotRejected | src/main.rs:182 | the capture "." does not parse |
| Decimal.TwoDotsRejected | src/main.rs:182 | the capture "1.2.3" does not parse |
| Decimal.FractionParsed | src/main.rs:182 | "42.5" parses to 42.5 |
| Fps.FindAvg | src/main.rs:174 | the lazy `.*?avg ` returns a position holding "avg " plus a digit or dot, at or after the start |
| Fps.FindAvgFirst | src/main.rs:174 | the lazy scan stops at the first "avg " plus capture character, never crossing a newline |
| Fps.RunEndMaximal | src/main.rs:174 | the greedy `[\d\.]+` covers only digits and dots and stops at the first other character |
| Fps.RunEnd | src/main.rs:174 | the greedy `[\d\.]+` run from a position ends at or after it and within the text |
| Fps.MatchAt | src/main.rs:174 | a match found at p starts at p, has its "avg " at least three characters later, and its capture of at least one character lies within the text |
| Fps.NextMatch | src/main.rs:176-177 | the next match starts at or after the search position and is the match found at its own start |
| Fps.Matches | src/main.rs:176-178 | yields matches that start at or after the search position, each with a non-empty capture within the text |
| Fps.MatchAtIsMatch | src/main.rs:174 | the scanner finds at position p exactly the match the pattern describes there (both directions) |
| Fps.NextMatchLeftmost | src/main.rs:176-177 | the next match is the leftmost one from the search position; when there is none, nothing matches from there on |
| Fps.MatchesFound | src/main.rs:176-178 | every match `captures_iter` yields is the match found at its start |
| Fps.MatchesLeftmost | src/main.rs:176-178 | matches are yielded in order and do not overlap; none is skipped before the first or between two |
| Fps.MatchesExhaustive | src/main.rs:176-179 | no match starts after the end of the last one yielded |
| Fps.MatchAtCapture | src/main.rs:174 | the capture of a match is a non-empty run of digits and dots |
| Fps.ScannedLastMatch | src/main.rs:176-179 | the last match `captures_iter` yields is a match of the pattern, and every match of the pattern starts before its end |
| Fps.LastMatchesAgree | src/main.rs:174-179 | two such last matches have the same capture, so the last capture is well defined |
| Fps.GetFps | src/main.rs:172-185 | a reported fps is never negative |
| Fps.GetFpsIsLastMatch | src/main.rs:176-182 | a reported fps is the parsed capture of a match of the pattern, and every match starts before that match's end: it is the last one |
| Fps.GetFpsNoFpsLine | src/main.rs:176-180 | "No fps line" is reported exactly when the pattern matches nowhere |
| Fps.GetFpsOfLastMatch | src/main.rs:176-182 | for a last match of the pattern: when its capture is a float literal the result is that value, otherwise the InvalidFloat error carrying that capture |
| Fps.GetFpsInvalidFloat | src/main.rs:174-182 | a parse failure carries the capture of a last match of the pattern, a non-empty digits-and-dots text that is not a float literal |
| Fps.LastAverageWins | src/main.rs:176-182 | with two fps lines, 9 then 42.5, the result is 42.5 |
| Fps.NoMetricsHere | src/main.rs:180 | a log without "fps" fails with NoFpsLine |
| Table.Stdout.Print | src/main.rs:128 | `print!` appends its text to standard output |
| Table.Stdout.PrintLine | src/main.rs:132 | `println!()` appends a newline |
| Table.Cell | src/main.rs:149-162 | a cell is at least as long as the two-decimal fps, and longer exactly after the baseline row, where the trend is added |
| Table.CellShape | src/main.rs:149-162 | a cell starts with the two-decimal fps; it is exactly that at the baseline row only, and every later row adds a trend ending in '%' |
| Table.TrendGlyphBands | src/main.rs:153-160 | neutral iff abs(frac) < 0.01 (0.01 is not neutral), down iff frac <= -0.01, up iff frac >= 0.01; '+' iff frac > 0 |
| Table.TrendAgainstBaseline | src/main.rs:152-160 | against a positive baseline: down iff fps <= 0.99·first, up iff fps >= 1.01·first, '+' iff fps > first |
| Table.TableLayout | src/main.rs:128-169 | header, separator, one row per commit in configured order, then a blank line |
| Table.ColumnsAgree | src/main.rs:128-167 | with pipe-free labels and numbers, the header, separator and every row have one column per bench plus the label column |
| Table.PrintHeader | src/main.rs:128-132 | writes two pipes, then each bench label followed by a pipe, then a newline |
| Table.PrintSeparator | src/main.rs:134-138 | writes pipe, dash, pipe, then a dash and a pipe per bench, then a newline |
| Table.PrintCells | src/main.rs:143-166 | writes every bench's cell of commit i, each closed by a pipe, in configured order |
| Table.PrintCell | src/main.rs:144-165 | writes the cell of bench j at commit i and its closing pipe |
| Table.PrintRow | src/main.rs:141-167 | writes the commit's label (or its id when unlabelled) between pipes, then every bench's cell, then a newline |
| Table.PrintRows | src/main.rs:140-168 | writes the commits' rows in configured order |
| Table.PrintMarkdownTable | src/main.rs:127-170 | appends exactly the rendered table lines to standard output |
| Driver.CiConfigText | src/main.rs:90-91 | the CI config text starts with `(events: [(` and ends with `, AppExit)])` |
| Driver.CiConfigFrames | src/main.rs:90-91 | the CI config is `(events: [(` + decimal frame count + `, AppExit)])`, and the frame count reads back unchanged |
| Driver.CargoArgs | src/main.rs:64-73 | the arguments are `run --example <example> --release --features bevy_ci_testing --`, then the example arguments in order |
| Driver.CargoArgsIgnoreLabel | src/main.rs:64-73 | two benches give the same arguments exactly when their examples and example arguments agree |
| Driver.Measure | src/main.rs:77-80 | a measured fps is never negative; a failed run gives RunFailed with the run's error; an fps error means cargo ran and get_fps failed on its stderr |
| Driver.MeasureIsLastAverage | src/main.rs:77-80 | a measured fps is the parsed capture of the last match of the fps pattern in the run's stderr |
| Driver.MeasureOfLastMatch | src/main.rs:77-80 | after a successful run, the last match in stderr decides the result: its capture's value when the capture parses, otherwise FpsFailed(InvalidFloat) with that capture |
| Driver.MeasureNoFpsLine | src/main.rs:77-80 | after a successful run, the result is FpsFailed(NoFpsLine) exactly when the pattern matches nowhere in stderr |
| Driver.Collect | src/main.rs:40-46 | empty benches fail first with NoBenches; with benches, empty commits fail with NoCommits |
| Driver.RunBenchesOutcome | src/main.rs:63-82 | the bench loop succeeds iff every run does; otherwise it stops with the first failing run's error |
| Driver.RunBenchesAdds | src/main.rs:63-82 | a successful bench loop inserts every (bench, commit) pair with its run's fps, and changes no other entry |
| Driver.RunBenchesFailureStays | src/main.rs:80 | after a failed run, later benches are not run and the error stands |
| Driver.RunCommitsFailureStays | src/main.rs:58-61 | after a failed commit, later commits are not run and the error stands |
| Driver.RunCommitsSound | src/main.rs:56-83 | after n commits, every pair of those commits is present, and every entry holds its own run's fps |
| Driver.MeasuredAfter | src/main.rs:81 | inserting one commit's results keeps every entry tied to its run |
| Driver.RunCommitOutcome | src/main.rs:59-82 | one commit succeeds exactly when its checkout, its patches and every bench's run pass; otherwise the error is the first failing step's |
| Driver.RunCommitsOutcome | src/main.rs:58-83 | the commit loop succeeds exactly when every step at every commit passes; otherwise it stops at the first commit with a failing step, with that step's error |
| Driver.CollectSucceeds | src/main.rs:40-83 | `main` collects its results exactly when both lists are non-empty, the CI config is written and every step at every commit passes |
| Driver.CollectFailsFirst | src/main.rs:48-83 | a failed CI config write gives WriteConfigFailed with its cause; otherwise a failure is the first failing step's error at the first commit where a step fails |
| Driver.CollectOutcome | src/main.rs:40-83 | empty benches fail first, then empty commits; on success the results cover every pair with its run's fps |
| Driver.RunBench | src/main.rs:64-81 | builds the arguments, runs cargo and returns what the run reports, `Measure`: get_fps of stderr, or the run's error |
| Driver.MeasureCommit | src/main.rs:63-82 | the bench loop computes exactly the loop's specification, stopping at the first failure |
| Driver.CollectResults | src/main.rs:40-83 | the emptiness checks, the CI config and both loops compute exactly `Collect` |
| Driver.Execute | src/main.rs:40-87 | returns `Collect`'s outcome; on failure the table is not printed; on success the results are printable and the table is appended |

## Left out

- Argument parsing with argh, reading and deserialising the TOML file, `set_current_dir` and the `CI_TESTING_CONFIG` variable: I/O and foreign libraries. The model starts from an in-memory `Config`.
- Spawning git and cargo, the patch texts, and the file write: these are the `Host` functions. They are deterministic in the commit checked out and their arguments. `checkout` and `apply_patches` fail only as a whole, matching the source, which ignores exit codes.
- The "Building and running" progress line and the echoed stdout of each run: they go to standard output before the table, and the echoed stderr goes to stderr. None of them is part of the modelled `Stdout` text, which holds only what the table writes.
- `String::from_utf8_lossy`: the model takes the already decoded stderr text.
- Decimal.ParseFloat: gives the exact decimal value, not the nearest `f32`, and reads only texts of digits and dots (all a capture can hold).
- Driver.CiConfigFrames: the frame count is a `nat`; the source's `u32` bound is not enforced.
- Table.Formatter: `{:.2}` and `{:.1}` are left abstract as fields of a `Formatter`. Only their pipe-freedom is assumed, in `ColumnsAgree`.
- Table.Fraction: real division in place of `f32`. A zero baseline, which gives inf or NaN in the source, is excluded by `Printable` and by `Driver.BaselineNonZero`.
- Fps.IsCaptureChar: `\d` is read as ASCII `0-9`; the source's regex also accepts other Unicode decimal digits.
- Driver.Execute: returns the results for the contract's sake; the source returns `()`. The exit message is `Driver.Message`, which no contract uses.
- Driver.Measured: runs are deterministic, so when a (bench, commit) pair is configured twice (commits A, B, A) both runs report the same figure. In the source the later insert at src/main.rs:81 overwrites the earlier figure, which could differ from run to run; the model cannot show that overwrite.
- Table.PrintMarkdownTable: the table is printed with one row per commit and one column per bench. The header and separator lines are always printed. Every lookup needs `Covers`, because the source unwraps each lookup (src/main.rs:144-147); a missing entry, which panics there, is excluded by the precondition.
