/**
 * The in-memory configuration (src/config.rs): the commits to compare, the
 * benches to run at each commit and the frame budget of one run.
 *
 * Both records derive `Eq` and `Hash` over every field, so two benches that
 * differ only in their label are different map keys; Dafny's structural equality
 * on datatypes is the same relation.
 */
module Configuration {
  import opened Wrappers

  // The source's `label` field is called `display` here (`label` is a Dafny keyword).

  datatype Bench = Bench(example: string, exampleArgs: seq<string>, display: string)

  datatype Commit = Commit(commit: string, display: Option<string>)

  /** `frames` is a `u32` in the source. */
  datatype Config = Config(commits: seq<Commit>, benches: seq<Bench>, frames: nat)

  /** The row label of a commit: its label when present, else its id. */
  function DisplayLabel(c: Commit): string {
    match c.display
    case Some(l) => l
    case None => c.commit
  }
}
