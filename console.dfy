/** The two command-line scripts: app2.js (module-level counters, totals
    printed at the end) and app.js (no counters, no guard). Each takes the
    directory from `process.argv[2]` and exits with code 1 when it is missing. */
module Console {
  import opened Optional
  import opened Paths
  import opened FileTree
  import opened SplitSpec
  import opened WalkSpec
  import opened Runner

  /** `process.argv[2]` when it is present and not empty. */
  function RootArgument(argv: seq<string>): Option<Path>
  {
    if |argv| > 2 && argv[2] != "" then Some(argv[2]) else None
  }

  /** The two totals app2.js prints once every PDF has been processed. */
  datatype Totals = Totals(processedFilesCount: nat, generatedPdfsCount: nat)

  /** app2.js run with `argv`, where `root` is what lies at `argv[2]`. The
      counters are created once, at 0, when the script loads, and never reset.
      Returns the exit code, the totals printed (none when the walk rejected)
      and the files written. */
  method CountingScript(argv: seq<string>, root: Node, writeErrors: map<Path, string>)
    returns (exitCode: int, totals: Option<Totals>, written: seq<Output>)
    ensures exitCode == 1 <==> RootArgument(argv).None?
    ensures exitCode == 1 ==> totals.None? && written == []
    ensures exitCode != 1 ==>
            var run := Fold(Config(Counting, writeErrors), Events(RootArgument(argv).value, root), Fresh);
            && exitCode == 0
            && written == run.state.written
            && totals == if run.fault.None? then Some(Totals(run.state.processed, run.state.generated)) else None
    ensures exitCode != 1 ==> (totals.Some? <==> Healthy(root))
    ensures totals.Some? ==> totals.value.generatedPdfsCount == |written|
    ensures exitCode != 1 ==>
            var evs := Events(RootArgument(argv).value, root);
            var desktop := Fold(Config(Desktop, writeErrors), evs, Fresh);
            && written == desktop.state.written
            && (totals.Some? ==> totals.value == Totals(desktop.state.processed, desktop.state.generated))
  {
    var counters := new SplitRun(Config(Counting, writeErrors));
    var directoryPath := RootArgument(argv);
    if directoryPath.None? {
      return 1, None, [];
    }
    var fault := counters.ProcessDirectory(directoryPath.value, root);
    written := counters.written;
    totals := if fault.None? then Some(Totals(counters.processedFilesCount, counters.generatedPdfsCount)) else None;
    exitCode := 0;
    var evs := Events(directoryPath.value, root);
    FoldFault(Config(Counting, writeErrors), evs, Fresh);
    NoFaultsIffHealthy(directoryPath.value, root);
    FoldEffect(Config(Counting, writeErrors), evs, Fresh);
    CountingMatchesDesktop(writeErrors, evs, Fresh);
  }

  /** app.js run with `argv`, where `root` is what lies at `argv[2]`. Returns
      the exit code, whether the walk completed, and the files written. */
  method PlainScript(argv: seq<string>, root: Node, writeErrors: map<Path, string>)
    returns (exitCode: int, completed: bool, written: seq<Output>)
    ensures exitCode == 1 <==> RootArgument(argv).None?
    ensures exitCode == 1 ==> !completed && written == []
    ensures exitCode != 1 ==>
            var run := Fold(Config(Early, writeErrors), Events(RootArgument(argv).value, root), Fresh);
            && exitCode == 0
            && written == run.state.written
            && (completed <==> run.fault.None?)
            && (completed <==> Healthy(root))
  {
    var run := new SplitRun(Config(Early, writeErrors));
    var directoryPath := RootArgument(argv);
    if directoryPath.None? {
      return 1, false, [];
    }
    var fault := run.ProcessDirectory(directoryPath.value, root);
    written := run.written;
    completed := fault.None?;
    exitCode := 0;
    FoldFault(Config(Early, writeErrors), Events(directoryPath.value, root), Fresh);
    NoFaultsIffHealthy(directoryPath.value, root);
  }
}
