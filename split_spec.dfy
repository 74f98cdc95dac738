/** What splitting one PDF does to the run: the per-file step `processPDF`
    of the three variants, as functions of the run state, and closed forms of
    its effect. */
module SplitSpec {
  import opened Optional
  import opened Paths
  import opened FileTree

  /** The three copies of the splitter. */
  datatype Variant =
    | Desktop   // main.js: page-count guard, counters, `details` log
    | Counting  // app2.js: page-count guard, module-level counters
    | Early     // app.js: no guard, no counters, `_page` names

  function Marker(v: Variant): string
  {
    if v.Early? then "_page" else "_pagina"
  }

  /** Documents of at most one page are skipped. */
  predicate SkipsShort(v: Variant) { !v.Early? }

  /** `processedFilesCount` and `generatedPdfsCount` exist. */
  predicate Counts(v: Variant) { !v.Early? }

  /** Messages are kept in `details`. */
  predicate Logs(v: Variant) { v.Desktop? }

  /** A variant together with the writes its disk refuses, and why. */
  datatype Config = Config(variant: Variant, writeErrors: map<Path, string>)

  /** A file written by the split: a one-page copy of page `page` (0-based)
      of `source`. */
  datatype Output = Output(path: Path, source: Path, page: nat)

  /** An entry of `details`. */
  datatype Detail =
    | Processing(file: Path)
    | Saved(number: nat, file: Path, output: Path)
    | Skipped(file: Path)
    | Failed(file: Path, error: string)

  /** The text main.js pushes for each entry. */
  function Render(d: Detail): string
  {
    match d
    case Processing(file) => "Procesando::: " + file
    case Saved(number, file, output) => "Pagina " + Decimal(number) + " de " + file + " guardado en::: " + output
    case Skipped(file) => "Se brinca documento de una página PDF: " + file
    case Failed(file, error) => "Error procesando::: " + file + ": " + error
  }

  /** The run state: the two counters, the log and the files written so far,
      in the order they were written. */
  datatype State = State(processed: nat, generated: nat, details: seq<Detail>, written: seq<Output>)

  const Fresh := State(0, 0, [], [])

  predicate WrittenTo(written: seq<Output>, path: Path)
  {
    exists k :: 0 <= k < |written| && written[k].path == path
  }

  /** What loading `path` gives now: a file this run already wrote over holds
      a one-page PDF; any other file holds what it held when the walk started. */
  function CurrentDoc(written: seq<Output>, path: Path, doc: Doc): Doc
  {
    if WrittenTo(written, path) then Pdf(1) else doc
  }

  /** Path of the output for page `i` (0-based) of `f`. */
  function Target(cfg: Config, f: PdfEntry, i: nat): Path
  {
    Join(f.dir, OutputName(Marker(cfg.variant), BaseName(f.name), i + 1))
  }

  /** Why writing the output for page `i` fails, if it does: a directory
      already has that name, or the disk refuses the path. */
  function WriteError(cfg: Config, f: PdfEntry, i: nat): Option<string>
  {
    var name := OutputName(Marker(cfg.variant), BaseName(f.name), i + 1);
    var target := Join(f.dir, name);
    if name in f.subdirs then Some("Error: EISDIR: illegal operation on a directory, open '" + target + "'")
    else if target in cfg.writeErrors then Some(cfg.writeErrors[target])
    else None
  }

  function Log(v: Variant, s: State, d: Detail): State
  {
    if Logs(v) then s.(details := s.details + [d]) else s
  }

  function Tally(v: Variant, s: State): State
  {
    if Counts(v) then s.(processed := s.processed + 1) else s
  }

  /** The state after the page loop, and the error that ended it early. */
  datatype Pages = Pages(state: State, error: Option<string>)

  /** The page loop from page `i` on: write the output, count it, log it. */
  function SplitPages(cfg: Config, f: PdfEntry, n: nat, i: nat, s: State): Pages
    requires i <= n
    decreases n - i
  {
    if i == n then Pages(s, None)
    else match WriteError(cfg, f, i)
      case Some(e) => Pages(s, Some(e))
      case None => SplitPages(cfg, f, n, i + 1, PageWritten(cfg, f, i, s))
  }

  /** `processPDF(filePath)` */
  function SplitFile(cfg: Config, f: PdfEntry, s: State): State
  {
    var v := cfg.variant;
    var path := Join(f.dir, f.name);
    var started := Log(v, s, Processing(path));
    match CurrentDoc(s.written, path, f.doc)
    case Unloadable(reason) => Log(v, started, Failed(path, reason))
    case Pdf(n) =>
      if SkipsShort(v) && n <= 1 then Tally(v, Log(v, started, Skipped(path)))
      else
        var r := SplitPages(cfg, f, n, 0, started);
        if r.error.Some? then Log(v, r.state, Failed(path, r.error.value)) else Tally(v, r.state)
  }

  /** The first page from `i` whose write fails, or `n` when none does. */
  function FirstFailure(cfg: Config, f: PdfEntry, i: nat, n: nat): (k: nat)
    requires i <= n
    ensures i <= k <= n
    ensures k < n ==> WriteError(cfg, f, k).Some?
    ensures forall j :: i <= j < k ==> WriteError(cfg, f, j).None?
    decreases n - i
  {
    if i == n || WriteError(cfg, f, i).Some? then i else FirstFailure(cfg, f, i + 1, n)
  }

  /** The outputs for pages `i` to `k - 1`, in page order. */
  function Outputs(cfg: Config, f: PdfEntry, i: nat, k: nat): seq<Output>
    requires i <= k
  {
    seq(k - i, j requires 0 <= j < k - i => Output(Target(cfg, f, i + j), Join(f.dir, f.name), i + j))
  }

  /** The log entries for pages `i` to `k - 1`, in page order. */
  function SavedLog(cfg: Config, f: PdfEntry, i: nat, k: nat): seq<Detail>
    requires i <= k
  {
    seq(k - i, j requires 0 <= j < k - i => Saved(i + j + 1, Join(f.dir, f.name), Target(cfg, f, i + j)))
  }

  lemma OutputsCons(cfg: Config, f: PdfEntry, i: nat, k: nat)
    requires i < k
    ensures Outputs(cfg, f, i, k) == [Output(Target(cfg, f, i), Join(f.dir, f.name), i)] + Outputs(cfg, f, i + 1, k)
  {
  }

  lemma SavedLogCons(cfg: Config, f: PdfEntry, i: nat, k: nat)
    requires i < k
    ensures SavedLog(cfg, f, i, k) == [Saved(i + 1, Join(f.dir, f.name), Target(cfg, f, i))] + SavedLog(cfg, f, i + 1, k)
  {
  }

  /** The state after writing page `i` successfully. */
  function PageWritten(cfg: Config, f: PdfEntry, i: nat, s: State): State
  {
    var target := Target(cfg, f, i);
    var path := Join(f.dir, f.name);
    var wrote := s.(written := s.written + [Output(target, path, i)]);
    var counted := if Counts(cfg.variant) then wrote.(generated := wrote.generated + 1) else wrote;
    Log(cfg.variant, counted, Saved(i + 1, path, target))
  }

  /** The page loop writes, counts and logs exactly the pages before the
      first failing write, in ascending order, and reports that failure. */
  lemma {:induction false} SplitPagesClosedForm(cfg: Config, f: PdfEntry, n: nat, i: nat, s: State)
    requires i <= n
    ensures var k := FirstFailure(cfg, f, i, n);
            var r := SplitPages(cfg, f, n, i, s);
            && r.state.written == s.written + Outputs(cfg, f, i, k)
            && r.state.generated == s.generated + (if Counts(cfg.variant) then k - i else 0)
            && r.state.processed == s.processed
            && r.state.details == s.details + (if Logs(cfg.variant) then SavedLog(cfg, f, i, k) else [])
            && r.error == (if k < n then WriteError(cfg, f, k) else None)
    decreases n - i
  {
    if i < n && WriteError(cfg, f, i).None? {
      var next := PageWritten(cfg, f, i, s);
      assert SplitPages(cfg, f, n, i, s) == SplitPages(cfg, f, n, i + 1, next);
      SplitPagesClosedForm(cfg, f, n, i + 1, next);
      var k := FirstFailure(cfg, f, i, n);
      assert k == FirstFailure(cfg, f, i + 1, n);
      OutputsCons(cfg, f, i, k);
      SavedLogCons(cfg, f, i, k);
    }
  }

  /** Output `j` of a document is the one-page copy of its page `j`, written
      beside it as `<base><marker><j + 1>.pdf`. */
  lemma OutputsNamed(cfg: Config, f: PdfEntry, k: nat, j: nat)
    requires j < k
    ensures Outputs(cfg, f, 0, k)[j].path == Join(f.dir, OutputName(Marker(cfg.variant), BaseName(f.name), j + 1))
    ensures Outputs(cfg, f, 0, k)[j].source == Join(f.dir, f.name)
    ensures Outputs(cfg, f, 0, k)[j].page == j
  {
    assert Outputs(cfg, f, 0, k)[j] == Output(Target(cfg, f, j), Join(f.dir, f.name), j);
  }

  /** No two outputs of a document share a path, and none is the document. */
  lemma OutputsDistinct(cfg: Config, f: PdfEntry, k: nat)
    ensures forall a, b :: 0 <= a < b < k ==> Outputs(cfg, f, 0, k)[a].path != Outputs(cfg, f, 0, k)[b].path
    ensures forall a :: 0 <= a < k ==> Outputs(cfg, f, 0, k)[a].path != Join(f.dir, f.name)
  {
    var m := Marker(cfg.variant);
    var base := BaseName(f.name);
    forall a, b | 0 <= a < b < k
      ensures Outputs(cfg, f, 0, k)[a].path != Outputs(cfg, f, 0, k)[b].path
    {
      if OutputName(m, base, a + 1) == OutputName(m, base, b + 1) {
        OutputNameInjective(m, base, a + 1, b + 1);
      }
      if Target(cfg, f, a) == Target(cfg, f, b) {
        JoinInjective(f.dir, OutputName(m, base, a + 1), OutputName(m, base, b + 1));
      }
    }
    forall a | 0 <= a < k
      ensures Outputs(cfg, f, 0, k)[a].path != Join(f.dir, f.name)
    {
      OutputNotSource(m, f.name, a + 1);
      if Target(cfg, f, a) == Join(f.dir, f.name) {
        JoinInjective(f.dir, OutputName(m, base, a + 1), f.name);
      }
    }
  }

  /** A document that is split and whose writes all succeed: every page is
      written, counted and logged in order, after the `Procesando` entry, and
      the file counts as processed. */
  lemma SplitAllPages(cfg: Config, f: PdfEntry, s: State, n: nat)
    requires CurrentDoc(s.written, Join(f.dir, f.name), f.doc) == Pdf(n)
    requires !(SkipsShort(cfg.variant) && n <= 1)
    requires FirstFailure(cfg, f, 0, n) == n
    ensures var r := SplitFile(cfg, f, s);
            var v := cfg.variant;
            && r.written == s.written + Outputs(cfg, f, 0, n)
            && r.generated == s.generated + (if Counts(v) then n else 0)
            && r.processed == s.processed + (if Counts(v) then 1 else 0)
            && r.details == s.details + (if Logs(v) then [Processing(Join(f.dir, f.name))] + SavedLog(cfg, f, 0, n) else [])
  {
    var started := Log(cfg.variant, s, Processing(Join(f.dir, f.name)));
    SplitPagesClosedForm(cfg, f, n, 0, started);
  }

  /** The guard: a document of at most one page produces nothing, is logged
      as skipped, and still counts as processed. */
  lemma SplitSkipsShort(cfg: Config, f: PdfEntry, s: State, n: nat)
    requires SkipsShort(cfg.variant)
    requires CurrentDoc(s.written, Join(f.dir, f.name), f.doc) == Pdf(n) && n <= 1
    ensures var r := SplitFile(cfg, f, s);
            && r.written == s.written
            && r.generated == s.generated
            && r.processed == s.processed + 1
            && r.details == s.details + (if Logs(cfg.variant) then [Processing(Join(f.dir, f.name)), Skipped(Join(f.dir, f.name))] else [])
  {
  }

  /** A document that cannot be loaded: one error entry after the
      `Procesando` entry, nothing written, nothing counted. */
  lemma SplitLoadFails(cfg: Config, f: PdfEntry, s: State, reason: string)
    requires CurrentDoc(s.written, Join(f.dir, f.name), f.doc) == Unloadable(reason)
    ensures var r := SplitFile(cfg, f, s);
            var path := Join(f.dir, f.name);
            && r.written == s.written
            && r.generated == s.generated
            && r.processed == s.processed
            && r.details == s.details + (if Logs(cfg.variant) then [Processing(path), Failed(path, reason)] else [])
  {
  }

  /** A write that fails at page `k`: the pages before it stay written and
      counted, one error entry closes the file's log, and the file does not
      count as processed. */
  lemma SplitWriteFails(cfg: Config, f: PdfEntry, s: State, n: nat)
    requires CurrentDoc(s.written, Join(f.dir, f.name), f.doc) == Pdf(n)
    requires !(SkipsShort(cfg.variant) && n <= 1)
    requires FirstFailure(cfg, f, 0, n) < n
    ensures var k := FirstFailure(cfg, f, 0, n);
            var r := SplitFile(cfg, f, s);
            var v := cfg.variant;
            var path := Join(f.dir, f.name);
            && r.written == s.written + Outputs(cfg, f, 0, k)
            && r.generated == s.generated + (if Counts(v) then k else 0)
            && r.processed == s.processed
            && r.details == s.details + (if Logs(v) then [Processing(path)] + SavedLog(cfg, f, 0, k) + [Failed(path, WriteError(cfg, f, k).value)] else [])
  {
    var started := Log(cfg.variant, s, Processing(Join(f.dir, f.name)));
    SplitPagesClosedForm(cfg, f, n, 0, started);
  }
}
