/**
 * The benchmark driver in `main` (src/main.rs:40-88): check the
 * configuration, write the CI config, then for every commit check it out,
 * apply the patches and run every bench, collecting one fps figure per
 * (bench, commit) pair; print the table once every run has succeeded.
 *
 * The processes the driver spawns (git, cargo) and the file it writes are
 * the fields of a `Host`: each returns success or failure text. They are
 * functions of what they are given and of the commit checked out, so two
 * runs of the same arguments at the same commit report the same output.
 */
module Driver {
  import opened Wrappers
  import opened Configuration
  import opened Decimal
  import opened Fps
  import opened Table

  const CiConfigPath: string := "benchy-ci-config.ron"

  /** The external collaborators. Each failure carries the error's text. */
  datatype Host = Host(
    writeFile: (string, string) -> Outcome<string>,          // path, contents
    checkout: string -> Outcome<string>,                     // commit id
    applyPatches: string -> Outcome<string>,                 // the commit checked out
    cargo: (string, seq<string>) -> Result<string, string>)  // commit checked out, arguments; stderr text

  datatype Error =
    | NoBenches
    | NoCommits
    | WriteConfigFailed(cause: string)
    | CheckoutFailed(commit: string, cause: string)
    | PatchFailed(cause: string)
    | RunFailed(cause: string)
    | FpsFailed(reason: FpsError)

  /** The text `main` reports for an error: the context it adds, else the cause. */
  function Message(e: Error): string {
    match e
    case NoBenches => "At least one bench must be configured."
    case NoCommits => "At least one commit must be configured."
    case WriteConfigFailed(_) => "Failed to write CI config \"" + CiConfigPath + "\""
    case CheckoutFailed(c, _) => "Failed to checkout commit \"" + c + "\""
    case PatchFailed(_) => "Failed to apply patches."
    case RunFailed(cause) => cause
    case FpsFailed(NoFpsLine) => "No fps line in log output."
    case FpsFailed(InvalidFloat(_)) => "invalid float literal"
  }

  /** `write_ci_config`'s file contents: exit after `frames` frames. */
  function CiConfigText(frames: nat): (text: string)
    ensures |text| >= 24
    ensures text[..11] == "(events: [(" && text[|text| - 12..] == ", AppExit)])"
  {
    "(events: [(" + NatToDecimal(frames) + ", AppExit)])"
  }

  /** The frame count is written in decimal between fixed text, so it reads back unchanged. */
  lemma CiConfigFrames(frames: nat)
    ensures var text := CiConfigText(frames);
            && |text| >= 24 && text[..11] == "(events: [(" && text[|text| - 12..] == ", AppExit)])"
            && AllDigits(text[11..|text| - 12]) && DigitsValue(text[11..|text| - 12]) == frames
  {
    var digits := NatToDecimal(frames);
    var text := CiConfigText(frames);
    assert text == "(events: [(" + digits + ", AppExit)])";
    assert text[11..|text| - 12] == digits;
    assert text[..11] == "(events: [(";
    assert text[|text| - 12..] == ", AppExit)])";
  }

  /**
   * The argument vector of `cargo` for one bench:
   * `run --example <example> --release --features bevy_ci_testing -- <args>`.
   */
  function CargoArgs(b: Bench): (args: seq<string>)
    ensures |args| == 7 + |b.exampleArgs|
    ensures args[..7] == ["run", "--example", b.example, "--release", "--features", "bevy_ci_testing", "--"]
    ensures args[7..] == b.exampleArgs
  {
    ["run", "--example", b.example, "--release", "--features", "bevy_ci_testing", "--"] + b.exampleArgs
  }

  /**
   * The label never reaches cargo: two benches run the same command exactly
   * when their examples and example arguments agree.
   */
  lemma CargoArgsIgnoreLabel(b1: Bench, b2: Bench)
    ensures CargoArgs(b1) == CargoArgs(b2) <==> b1.example == b2.example && b1.exampleArgs == b2.exampleArgs
  {
    if CargoArgs(b1) == CargoArgs(b2) {
      assert CargoArgs(b1)[2] == b1.example;
      assert CargoArgs(b1)[7..] == b1.exampleArgs;
    }
  }

  /** One run of bench `b` at commit `c`, then `get_fps` on its stderr. */
  function Measure(host: Host, b: Bench, c: Commit): (r: Result<real, Error>)
    ensures r.Success? ==> 0.0 <= r.value
    ensures r.Failure? ==> r.error.RunFailed? || r.error.FpsFailed?
    ensures r.Failure? && r.error.FpsFailed? ==>
              host.cargo(c.commit, CargoArgs(b)).Success? && GetFps(host.cargo(c.commit, CargoArgs(b)).value).Failure?
    ensures host.cargo(c.commit, CargoArgs(b)).Failure? ==> r == Failure(RunFailed(host.cargo(c.commit, CargoArgs(b)).error))
  {
    match host.cargo(c.commit, CargoArgs(b))
    case Failure(cause) => Failure(RunFailed(cause))
    case Success(stderr) =>
      match GetFps(stderr)
      case Failure(reason) => Failure(FpsFailed(reason))
      case Success(fps) => Success(fps)
  }

  /**
   * A measured fps is the parsed capture of the last match of the fps
   * pattern in the run's stderr.
   */
  lemma MeasureIsLastAverage(host: Host, b: Bench, c: Commit)
    requires Measure(host, b, c).Success?
    ensures host.cargo(c.commit, CargoArgs(b)).Success?
    ensures var stderr := host.cargo(c.commit, CargoArgs(b)).value;
            exists m: Match :: IsLastMatch(stderr, m) && ParseFloat(Capture(stderr, m)) == Some(Measure(host, b, c).value)
  {
    GetFpsIsLastMatch(host.cargo(c.commit, CargoArgs(b)).value);
  }

  /**
   * When the run succeeds, the last match of the fps pattern in its stderr
   * decides the measurement: the value of its capture, or the invalid
   * float error carrying that capture.
   */
  lemma MeasureOfLastMatch(host: Host, b: Bench, c: Commit, m: Match)
    requires host.cargo(c.commit, CargoArgs(b)).Success?
    requires IsLastMatch(host.cargo(c.commit, CargoArgs(b)).value, m)
    ensures var token := Capture(host.cargo(c.commit, CargoArgs(b)).value, m);
            ParseFloat(token).Some? ==> Measure(host, b, c) == Success(ParseFloat(token).value)
    ensures var token := Capture(host.cargo(c.commit, CargoArgs(b)).value, m);
            ParseFloat(token).None? ==> Measure(host, b, c) == Failure(FpsFailed(InvalidFloat(token)))
  {
    var stderr := host.cargo(c.commit, CargoArgs(b)).value;
    GetFpsOfLastMatch(stderr, m);
    ParseFloatAccepts(Capture(stderr, m));
  }

  /** When the run succeeds, the measurement reports a missing fps line exactly when the pattern matches nowhere in stderr. */
  lemma MeasureNoFpsLine(host: Host, b: Bench, c: Commit)
    requires host.cargo(c.commit, CargoArgs(b)).Success?
    ensures Measure(host, b, c) == Failure(FpsFailed(NoFpsLine)) <==>
              forall m: Match :: !IsMatch(host.cargo(c.commit, CargoArgs(b)).value, m)
  {
    GetFpsNoFpsLine(host.cargo(c.commit, CargoArgs(b)).value);
  }

  /** What running one bench at one commit reports. */
  type Measurer = (Bench, Commit) -> Result<real, Error>

  /** `measure` is `Measure` on this host (the trigger keeps it from unfolding elsewhere). */
  ghost predicate MeasuresOn(host: Host, measure: Measurer) {
    forall b, c {:trigger Measure(host, b, c)} :: measure(b, c) == Measure(host, b, c)
  }

  ghost function MeasureOn(host: Host): (measure: Measurer)
    ensures MeasuresOn(host, measure)
  {
    (b, c) => Measure(host, b, c)
  }

  // ---------------------------------------------------------------------
  // The loops of `main`, as functions of the configuration and the host

  /**
   * The results after the first `n` benches at commit `c`, starting from
   * `acc`, or the first failure among them.
   */
  ghost function RunBenches(measure: Measurer, benches: seq<Bench>, c: Commit, acc: Results, n: nat): Result<Results, Error>
    requires n <= |benches|
  {
    if n == 0 then Success(acc)
    else
      match RunBenches(measure, benches, c, acc, n - 1)
      case Failure(e) => Failure(e)
      case Success(m) =>
        match measure(benches[n - 1], c)
        case Failure(e) => Failure(e)
        case Success(fps) => Success(m[(benches[n - 1], c) := fps])
  }

  /** One iteration of the loop over commits: checkout, patches, then every bench. */
  ghost function RunCommit(host: Host, measure: Measurer, benches: seq<Bench>, c: Commit, acc: Results): Result<Results, Error> {
    match host.checkout(c.commit)
    case Fail(cause) => Failure(CheckoutFailed(c.commit, cause))
    case Pass =>
      match host.applyPatches(c.commit)
      case Fail(cause) => Failure(PatchFailed(cause))
      case Pass => RunBenches(measure, benches, c, acc, |benches|)
  }

  /** The results after the first `n` commits, or the first failure among them. */
  ghost function RunCommits(host: Host, measure: Measurer, config: Config, n: nat): Result<Results, Error>
    requires n <= |config.commits|
  {
    if n == 0 then Success(map[])
    else
      match RunCommits(host, measure, config, n - 1)
      case Failure(e) => Failure(e)
      case Success(m) => RunCommit(host, measure, config.benches, config.commits[n - 1], m)
  }

  /** What `main` collects before printing, or the error it stops with. */
  ghost function Collect(config: Config, host: Host, measure: Measurer): (r: Result<Results, Error>)
    ensures config.benches == [] ==> r == Failure(NoBenches)
    ensures config.benches != [] && config.commits == [] ==> r == Failure(NoCommits)
  {
    if config.benches == [] then Failure(NoBenches)
    else if config.commits == [] then Failure(NoCommits)
    else
      match host.writeFile(CiConfigPath, CiConfigText(config.frames))
      case Fail(cause) => Failure(WriteConfigFailed(cause))
      case Pass => RunCommits(host, measure, config, |config.commits|)
  }

  // ---------------------------------------------------------------------
  // What the loops promise

  /** Every entry is a configured pair holding the fps its run reported. */
  ghost predicate Measured(results: Results, config: Config, measure: Measurer) {
    forall key :: key in results ==>
      && key.0 in config.benches && key.1 in config.commits
      && measure(key.0, key.1) == Success(results[key])
  }

  /** The results hold every configured pair, each with the fps its run reported. */
  ghost predicate ResultsOf(results: Results, config: Config, measure: Measurer) {
    Covers(results, config) && Measured(results, config, measure)
  }

  /** Bench `j` is the first one whose run fails at commit `c`. */
  ghost predicate FirstFailingBench(measure: Measurer, benches: seq<Bench>, c: Commit, j: nat) {
    && j < |benches| && measure(benches[j], c).Failure?
    && forall k :: 0 <= k < j ==> measure(benches[k], c).Success?
  }

  /**
   * The loop over benches succeeds exactly when every run does; otherwise it
   * stops with the error of the first failing run.
   */
  lemma {:induction false} RunBenchesOutcome(measure: Measurer, benches: seq<Bench>, c: Commit, acc: Results, n: nat)
    requires n <= |benches|
    ensures RunBenches(measure, benches, c, acc, n).Success? <==> forall k :: 0 <= k < n ==> measure(benches[k], c).Success?
    ensures RunBenches(measure, benches, c, acc, n).Failure? ==>
              exists j: nat :: j < n && FirstFailingBench(measure, benches, c, j)
                               && measure(benches[j], c).error == RunBenches(measure, benches, c, acc, n).error
  {
    if n > 0 {
      RunBenchesOutcome(measure, benches, c, acc, n - 1);
      if RunBenches(measure, benches, c, acc, n - 1).Success? && measure(benches[n - 1], c).Failure? {
        assert FirstFailingBench(measure, benches, c, n - 1);
      }
    }
  }

  /**
   * A successful loop over benches adds the pair of every bench with its
   * run's fps; entries for other pairs are kept as they were.
   */
  lemma {:induction false} RunBenchesAdds(measure: Measurer, benches: seq<Bench>, c: Commit, acc: Results, n: nat)
    requires n <= |benches|
    requires RunBenches(measure, benches, c, acc, n).Success?
    ensures var m := RunBenches(measure, benches, c, acc, n).value;
            && acc.Keys <= m.Keys
            && (forall k :: 0 <= k < n ==> (benches[k], c) in m && measure(benches[k], c) == Success(m[(benches[k], c)]))
            && (forall key :: key in m && key !in acc ==> exists k :: 0 <= k < n && key == (benches[k], c))
            && (forall key :: key in acc && m[key] != acc[key] ==> exists k :: 0 <= k < n && key == (benches[k], c))
  {
    if n > 0 {
      RunBenchesAdds(measure, benches, c, acc, n - 1);
    }
  }

  /** Once the loop over benches has failed, running more benches keeps that failure. */
  lemma {:induction false} RunBenchesFailureStays(measure: Measurer, benches: seq<Bench>, c: Commit, acc: Results, n: nat, m: nat)
    requires n <= m <= |benches|
    requires RunBenches(measure, benches, c, acc, n).Failure?
    ensures RunBenches(measure, benches, c, acc, m) == RunBenches(measure, benches, c, acc, n)
    decreases m - n
  {
    if n < m {
      RunBenchesFailureStays(measure, benches, c, acc, n, m - 1);
    }
  }

  /** Once the loop over commits has failed, running more commits keeps that failure. */
  lemma {:induction false} RunCommitsFailureStays(host: Host, measure: Measurer, config: Config, n: nat, m: nat)
    requires n <= m <= |config.commits|
    requires RunCommits(host, measure, config, n).Failure?
    ensures RunCommits(host, measure, config, m) == RunCommits(host, measure, config, n)
    decreases m - n
  {
    if n < m {
      RunCommitsFailureStays(host, measure, config, n, m - 1);
    }
  }

  /**
   * After the first `n` commits the results hold every pair of those commits
   * with its run's fps, and nothing else.
   */
  lemma {:induction false} RunCommitsSound(host: Host, measure: Measurer, config: Config, n: nat)
    requires n <= |config.commits|
    requires RunCommits(host, measure, config, n).Success?
    ensures var m := RunCommits(host, measure, config, n).value;
            && Measured(m, config, measure)
            && forall i, j :: 0 <= i < n && 0 <= j < |config.benches| ==> (config.benches[j], config.commits[i]) in m
  {
    if n > 0 {
      RunCommitStep(host, measure, config, n);
      RunCommitsSound(host, measure, config, n - 1);
      var before := RunCommits(host, measure, config, n - 1).value;
      var c := config.commits[n - 1];
      RunBenchesAdds(measure, config.benches, c, before, |config.benches|);
      var after := RunCommits(host, measure, config, n).value;
      MeasuredAfter(config, measure, c, before, after);
      CoveredAfter(config, n, before, after);
    }
  }

  /** The pairs of the first `n - 1` commits stay, and the `n`-th commit's pairs are added. */
  lemma CoveredAfter(config: Config, n: nat, before: Results, after: Results)
    requires 0 < n <= |config.commits|
    requires forall i, j :: 0 <= i < n - 1 && 0 <= j < |config.benches| ==> (config.benches[j], config.commits[i]) in before
    requires before.Keys <= after.Keys
    requires forall k :: 0 <= k < |config.benches| ==> (config.benches[k], config.commits[n - 1]) in after
    ensures forall i, j :: 0 <= i < n && 0 <= j < |config.benches| ==> (config.benches[j], config.commits[i]) in after
  {
  }

  /** A successful loop over `n` commits is the loop over `n - 1` followed by every bench at the last one. */
  lemma RunCommitStep(host: Host, measure: Measurer, config: Config, n: nat)
    requires 0 < n <= |config.commits|
    requires RunCommits(host, measure, config, n).Success?
    ensures RunCommits(host, measure, config, n - 1).Success?
    ensures var before := RunCommits(host, measure, config, n - 1).value;
            var after := RunBenches(measure, config.benches, config.commits[n - 1], before, |config.benches|);
            after.Success? && after == RunCommits(host, measure, config, n)
  {
  }

  /** The entries one commit adds keep the results measured. */
  lemma MeasuredAfter(config: Config, measure: Measurer, c: Commit, before: Results, after: Results)
    requires c in config.commits && Measured(before, config, measure)
    requires forall k :: 0 <= k < |config.benches| ==> (config.benches[k], c) in after && measure(config.benches[k], c) == Success(after[(config.benches[k], c)])
    requires forall key :: key in after && key !in before ==> exists k :: 0 <= k < |config.benches| && key == (config.benches[k], c)
    requires forall key :: key in before && key in after && after[key] != before[key] ==> exists k :: 0 <= k < |config.benches| && key == (config.benches[k], c)
    ensures Measured(after, config, measure)
  {
    forall key | key in after
      ensures key.0 in config.benches && key.1 in config.commits
      ensures measure(key.0, key.1) == Success(after[key])
    {
      if key !in before || after[key] != before[key] {
        var k :| 0 <= k < |config.benches| && key == (config.benches[k], c);
      }
    }
  }

  /** Every step at commit `c` passes: checkout, patches and the run of every bench. */
  ghost predicate CommitPasses(host: Host, measure: Measurer, benches: seq<Bench>, c: Commit) {
    && host.checkout(c.commit) == Pass
    && host.applyPatches(c.commit) == Pass
    && forall j :: 0 <= j < |benches| ==> measure(benches[j], c).Success?
  }

  /** `e` is the error of the first failing step at commit `c`. */
  ghost predicate FirstStepError(host: Host, measure: Measurer, benches: seq<Bench>, c: Commit, e: Error) {
    match host.checkout(c.commit)
    case Fail(cause) => e == CheckoutFailed(c.commit, cause)
    case Pass =>
      match host.applyPatches(c.commit)
      case Fail(cause) => e == PatchFailed(cause)
      case Pass => exists j: nat :: FirstFailingBench(measure, benches, c, j) && e == measure(benches[j], c).error
  }

  /**
   * One commit succeeds exactly when every step at it passes; otherwise it
   * stops with the error of the first failing step.
   */
  lemma RunCommitOutcome(host: Host, measure: Measurer, benches: seq<Bench>, c: Commit, acc: Results)
    ensures RunCommit(host, measure, benches, c, acc).Success? <==> CommitPasses(host, measure, benches, c)
    ensures RunCommit(host, measure, benches, c, acc).Failure? ==>
              FirstStepError(host, measure, benches, c, RunCommit(host, measure, benches, c, acc).error)
  {
    RunBenchesOutcome(measure, benches, c, acc, |benches|);
  }

  /**
   * The loop over the first `n` commits succeeds exactly when every step at
   * each of them passes; otherwise it stops with the first failing step's
   * error, at the first commit where a step fails.
   */
  lemma {:induction false} RunCommitsOutcome(host: Host, measure: Measurer, config: Config, n: nat)
    requires n <= |config.commits|
    ensures RunCommits(host, measure, config, n).Success? <==>
              forall i :: 0 <= i < n ==> CommitPasses(host, measure, config.benches, config.commits[i])
    ensures RunCommits(host, measure, config, n).Failure? ==>
              exists i: nat :: i < n
                && (forall k :: 0 <= k < i ==> CommitPasses(host, measure, config.benches, config.commits[k]))
                && FirstStepError(host, measure, config.benches, config.commits[i], RunCommits(host, measure, config, n).error)
  {
    if n > 0 {
      RunCommitsOutcome(host, measure, config, n - 1);
      var before := RunCommits(host, measure, config, n - 1);
      if before.Success? {
        RunCommitOutcome(host, measure, config.benches, config.commits[n - 1], before.value);
      }
    }
  }

  /**
   * `main` collects its results exactly when both lists are non-empty, the
   * CI config is written, and every step at every commit passes.
   */
  lemma CollectSucceeds(config: Config, host: Host, measure: Measurer)
    ensures Collect(config, host, measure).Success? <==>
              && config.benches != [] && config.commits != []
              && host.writeFile(CiConfigPath, CiConfigText(config.frames)) == Pass
              && forall i :: 0 <= i < |config.commits| ==> CommitPasses(host, measure, config.benches, config.commits[i])
  {
    RunCommitsOutcome(host, measure, config, |config.commits|);
  }

  /**
   * A failure of `main` is the first failing step's: an empty list, the CI
   * config write, or the first failing step at the first commit where one fails.
   */
  lemma CollectFailsFirst(config: Config, host: Host, measure: Measurer)
    requires config.benches != [] && config.commits != []
    ensures host.writeFile(CiConfigPath, CiConfigText(config.frames)).Fail? ==>
              Collect(config, host, measure) == Failure(WriteConfigFailed(host.writeFile(CiConfigPath, CiConfigText(config.frames)).error))
    ensures host.writeFile(CiConfigPath, CiConfigText(config.frames)) == Pass && Collect(config, host, measure).Failure? ==>
              exists i: nat :: i < |config.commits|
                && (forall k :: 0 <= k < i ==> CommitPasses(host, measure, config.benches, config.commits[k]))
                && FirstStepError(host, measure, config.benches, config.commits[i], Collect(config, host, measure).error)
  {
    RunCommitsOutcome(host, measure, config, |config.commits|);
  }

  /**
   * `main` fails first on an empty bench list, then on an empty commit list;
   * when it succeeds, every (bench, commit) pair has the fps its run reported.
   */
  lemma CollectOutcome(config: Config, host: Host, measure: Measurer)
    ensures config.benches == [] ==> Collect(config, host, measure) == Failure(NoBenches)
    ensures config.benches != [] && config.commits == [] ==> Collect(config, host, measure) == Failure(NoCommits)
    ensures Collect(config, host, measure).Success? ==> ResultsOf(Collect(config, host, measure).value, config, measure)
  {
    if Collect(config, host, measure).Success? {
      RunCommitsSound(host, measure, config, |config.commits|);
    }
  }

  // ---------------------------------------------------------------------
  // The driver

  /** One bench at the commit checked out: build, run, and read the fps from stderr. */
  method RunBench(host: Host, ghost measure: Measurer, bench: Bench, commit: Commit) returns (r: Result<real, Error>)
    requires MeasuresOn(host, measure)
    ensures r == measure(bench, commit)
  {
    var args := ["run", "--example", bench.example, "--release", "--features", "bevy_ci_testing", "--"];
    args := args + bench.exampleArgs;
    assert args == CargoArgs(bench);
    var output := host.cargo(commit.commit, args);
    if output.Failure? {
      r := Failure(RunFailed(output.error));
      assert r == Measure(host, bench, commit);
      return;
    }
    var fps := GetFps(output.value);
    if fps.Failure? {
      r := Failure(FpsFailed(fps.error));
      assert r == Measure(host, bench, commit);
      return;
    }
    r := Success(fps.value);
    assert r == Measure(host, bench, commit);
  }

  /** The loop over benches at the commit checked out, stopping at the first failure. */
  method MeasureCommit(config: Config, host: Host, ghost measure: Measurer, commit: Commit, results: Results)
    returns (r: Result<Results, Error>)
    requires MeasuresOn(host, measure)
    ensures r == RunBenches(measure, config.benches, commit, results, |config.benches|)
  {
    var acc := results;
    for j := 0 to |config.benches|
      invariant RunBenches(measure, config.benches, commit, results, j) == Success(acc)
    {
      var fps := RunBench(host, measure, config.benches[j], commit);
      if fps.Failure? {
        RunBenchesFailureStays(measure, config.benches, commit, results, j + 1, |config.benches|);
        return Failure(fps.error);
      }
      acc := acc[(config.benches[j], commit) := fps.value];
    }
    return Success(acc);
  }

  /** The emptiness checks, the CI config, then the loop over commits. */
  method CollectResults(config: Config, host: Host, ghost measure: Measurer) returns (r: Result<Results, Error>)
    requires MeasuresOn(host, measure)
    ensures r == Collect(config, host, measure)
  {
    if config.benches == [] {
      return Failure(NoBenches);
    }
    if config.commits == [] {
      return Failure(NoCommits);
    }
    var written := host.writeFile(CiConfigPath, CiConfigText(config.frames));
    if written.Fail? {
      return Failure(WriteConfigFailed(written.error));
    }
    var results: Results := map[];
    for i := 0 to |config.commits|
      invariant RunCommits(host, measure, config, i) == Success(results)
    {
      var commit := config.commits[i];
      var checkedOut := host.checkout(commit.commit);
      if checkedOut.Fail? {
        RunCommitsFailureStays(host, measure, config, i + 1, |config.commits|);
        return Failure(CheckoutFailed(commit.commit, checkedOut.error));
      }
      var patched := host.applyPatches(commit.commit);
      if patched.Fail? {
        RunCommitsFailureStays(host, measure, config, i + 1, |config.commits|);
        return Failure(PatchFailed(patched.error));
      }
      var measured := MeasureCommit(config, host, measure, commit, results);
      if measured.Failure? {
        RunCommitsFailureStays(host, measure, config, i + 1, |config.commits|);
        return measured;
      }
      results := measured.value;
    }
    return Success(results);
  }

  /** Every bench reports a non-zero fps at the baseline commit, whenever it reports one. */
  ghost predicate BaselineNonZero(config: Config, host: Host) {
    |config.commits| > 1 ==>
      forall j :: 0 <= j < |config.benches| ==>
        Measure(host, config.benches[j], config.commits[0]).Success? ==>
          Measure(host, config.benches[j], config.commits[0]).value != 0.0
  }

  /**
   * `main` after the configuration is loaded: collect every result, then
   * print the table; any failure ends the run before the table is printed.
   */
  method Execute(config: Config, host: Host, fmt: Formatter, out: Stdout) returns (r: Result<Results, Error>)
    requires BaselineNonZero(config, host)
    modifies out
    ensures r == Collect(config, host, MeasureOn(host))
    ensures r.Failure? ==> out.text == old(out.text)
    ensures r.Success? ==> Printable(r.value, config)
                           && out.text == old(out.text) + Render(TableLines(r.value, config, fmt))
  {
    ghost var measure := MeasureOn(host);
    r := CollectResults(config, host, measure);
    if r.Success? {
      CollectOutcome(config, host, measure);
      assert Printable(r.value, config) by {
        if |config.commits| > 1 {
          forall j | 0 <= j < |config.benches|
            ensures r.value[(config.benches[j], config.commits[0])] != 0.0
          {
            var key := (config.benches[j], config.commits[0]);
            assert key in r.value;
            assert measure(key.0, key.1) == Success(r.value[key]);
            assert Measure(host, key.0, key.1) == Success(r.value[key]);
          }
        }
      }
      PrintMarkdownTable(out, r.value, config, fmt);
    }
  }
}
