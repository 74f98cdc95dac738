/** The desktop application's `processPDFs` (main.js): a fresh run with
    closure-local counters and log, whose result object is returned to the
    HTTP handler that called it. */
module Desktop {
  import opened Optional
  import opened Paths
  import opened FileTree
  import opened SplitSpec
  import opened WalkSpec
  import opened Runner

  /** `{ processedFilesCount, generatedPdfsCount, details }` */
  datatype Reply = Reply(processedFilesCount: nat, generatedPdfsCount: nat, details: seq<string>)

  /** The promise either resolves with the reply or rejects with the failure
      of `readdir` or `stat` at a path. */
  datatype Outcome = Resolved(reply: Reply) | Rejected(fault: Path)

  function Rendered(ds: seq<Detail>): seq<string>
  {
    seq(|ds|, k requires 0 <= k < |ds| => Render(ds[k]))
  }

  /** `processPDFs(directoryPath)`, where `root` is what lies at that path
      and `writeErrors` the writes the disk refuses. Returns the outcome and
      the files written, which stay on disk even when the promise rejects. */
  method ProcessPDFs(directoryPath: Path, root: Node, writeErrors: map<Path, string>)
    returns (outcome: Outcome, written: seq<Output>)
    ensures var cfg := Config(Desktop, writeErrors);
            var run := Fold(cfg, Events(directoryPath, root), Fresh);
            && written == run.state.written
            && outcome == if run.fault.None?
                          then Resolved(Reply(run.state.processed, run.state.generated, Rendered(run.state.details)))
                          else Rejected(run.fault.value)
    ensures outcome.Resolved? <==> Healthy(root)
    ensures outcome.Resolved? ==> outcome.reply.generatedPdfsCount == |written|
    ensures var evs := Events(directoryPath, root);
            var run := Fold(Config(Desktop, writeErrors), evs, Fresh);
            && Starts(run.state.details) == SplitPaths(evs)
            && run.state.processed + Failures(run.state.details) == |SplitPaths(evs)|
  {
    var run := new SplitRun(Config(Desktop, writeErrors));
    var fault := run.ProcessDirectory(directoryPath, root);
    written := run.written;
    if fault.None? {
      outcome := Resolved(Reply(run.processedFilesCount, run.generatedPdfsCount, Rendered(run.details)));
    } else {
      outcome := Rejected(fault.value);
    }
    var evs := Events(directoryPath, root);
    FoldFault(Config(Desktop, writeErrors), evs, Fresh);
    NoFaultsIffHealthy(directoryPath, root);
    FoldEffect(Config(Desktop, writeErrors), evs, Fresh);
  }
}
