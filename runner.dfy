/** The walker itself: `processDirectory` and `processPDF` as methods of one
    run object whose fields are the counters, the log and the files written,
    updated in place as the source updates its variables. */
module Runner {
  import opened Optional
  import opened Paths
  import opened FileTree
  import opened SplitSpec
  import opened WalkSpec

  class SplitRun {
    const cfg: Config
    var processedFilesCount: nat
    var generatedPdfsCount: nat
    var details: seq<Detail>
    var written: seq<Output>

    function Current(): State
      reads this
    {
      State(processedFilesCount, generatedPdfsCount, details, written)
    }

    /** Both counters start at 0, the log and the disk's new files empty. */
    constructor (cfg: Config)
      ensures this.cfg == cfg && Current() == Fresh
    {
      this.cfg := cfg;
      processedFilesCount := 0;
      generatedPdfsCount := 0;
      details := [];
      written := [];
    }

    /** `processDirectory(dir)`, where `node` is what lies at `dir`: list it
        once, then take each entry in listing order, walking a subdirectory
        completely before the next entry. A `readdir` or `stat` failure is not
        caught: it is returned and ends the walk. */
    method ProcessDirectory(dir: Path, node: Node) returns (fault: Option<Path>)
      modifies this
      ensures Fold(cfg, Events(dir, node), old(Current())) == Run(Current(), fault)
      decreases node
    {
      if !node.Dir? {
        return Some(dir);
      }
      var files := node.entries;
      var i := 0;
      while i < |files|
        invariant 0 <= i <= |files|
        invariant Fold(cfg, DirEvents(dir, node, i), old(Current())) == Run(Current(), None)
      {
        var entry := files[i];
        var fullPath := Join(dir, entry.name);
        ghost var before := Current();
        FoldAppend(cfg, DirEvents(dir, node, i), EntryEvents(dir, node, i), old(Current()));
        if entry.Unstatable? {
          assert EntryEvents(dir, node, i) == [Fault(fullPath)];
          FaultStops(dir, node, i + 1, |files|, old(Current()));
          return Some(fullPath);
        }
        if IsDirectory(entry) {
          assert EntryEvents(dir, node, i) == Events(fullPath, entry);
          var sub := ProcessDirectory(fullPath, entry);
          if sub.Some? {
            FaultStops(dir, node, i + 1, |files|, old(Current()));
            return sub;
          }
        } else if IsPdfName(entry.name) {
          var f := PdfEntry(dir, entry.name, entry.doc, SubdirNames(files));
          assert EntryEvents(dir, node, i) == [Split(f)];
          ProcessPdf(f);
          assert Fold(cfg, EntryEvents(dir, node, i), before) == Fold(cfg, [], Current());
        }
        i := i + 1;
      }
      return None;
    }

    /** Once the walk of the first `k` entries has failed, the rest of the
        listing changes nothing. */
    lemma FaultStops(dir: Path, node: Node, k: nat, m: nat, s: State)
      requires node.Dir? && k <= m <= |node.entries|
      requires Fold(cfg, DirEvents(dir, node, k), s).fault.Some?
      ensures Fold(cfg, DirEvents(dir, node, m), s) == Fold(cfg, DirEvents(dir, node, k), s)
      decreases m
    {
      if k < m {
        FaultStops(dir, node, k, m - 1, s);
        FoldAppend(cfg, DirEvents(dir, node, m - 1), EntryEvents(dir, node, m - 1), s);
      }
    }

    /** `processPDF(filePath)`: log the start, load the document, skip it when
        the variant guards against short documents, otherwise split it; a
        load or write failure is caught, logged and ends this file only. */
    method ProcessPdf(f: PdfEntry)
      modifies this
      ensures Current() == SplitFile(cfg, f, old(Current()))
    {
      var v := cfg.variant;
      var filePath := Join(f.dir, f.name);
      if Logs(v) { details := details + [Processing(filePath)]; }
      var pdfDoc := CurrentDoc(written, filePath, f.doc);
      if pdfDoc.Unloadable? {
        if Logs(v) { details := details + [Failed(filePath, pdfDoc.reason)]; }
        return;
      }
      var pageCount := pdfDoc.pages;
      if !SkipsShort(v) || pageCount > 1 {
        var error := WritePages(f, pageCount);
        if error.Some? {
          if Logs(v) { details := details + [Failed(filePath, error.value)]; }
          return;
        }
      } else {
        if Logs(v) { details := details + [Skipped(filePath)]; }
      }
      if Counts(v) { processedFilesCount := processedFilesCount + 1; }
    }

    /** The page loop of `processPDF`: for each page in ascending order, write
        `<base><marker><i + 1>.pdf` beside the document, count it and log it;
        stop at the first write that fails and return its error. */
    method WritePages(f: PdfEntry, pageCount: nat) returns (error: Option<string>)
      modifies this
      ensures Pages(Current(), error) == SplitPages(cfg, f, pageCount, 0, old(Current()))
    {
      var v := cfg.variant;
      var filePath := Join(f.dir, f.name);
      var pdfName := BaseName(f.name);
      var i := 0;
      while i < pageCount
        invariant 0 <= i <= pageCount
        invariant SplitPages(cfg, f, pageCount, i, Current()) == SplitPages(cfg, f, pageCount, 0, old(Current()))
      {
        var newPdfPath := Join(f.dir, OutputName(Marker(v), pdfName, i + 1));
        error := WriteError(cfg, f, i);
        if error.Some? {
          return;
        }
        ghost var before := Current();
        written := written + [Output(newPdfPath, filePath, i)];
        if Counts(v) { generatedPdfsCount := generatedPdfsCount + 1; }
        if Logs(v) { details := details + [Saved(i + 1, filePath, newPdfPath)]; }
        assert Current() == PageWritten(cfg, f, i, before);
        i := i + 1;
      }
      error := None;
    }
  }
}
