# split-pdf, modelled in Dafny

The repository walks a directory tree and splits every PDF it finds into one
single-page PDF per page, written next to the source. The same walk exists in
three copies:

- `main.js` `processPDFs` is the desktop application's version. It has a
  page-count guard, closure-local counters and a `details` log, and it returns
  `{processedFilesCount, generatedPdfsCount, details}`.
- `app2.js` is a command-line script. It has the same guard and module-level
  counters, and it prints the totals.
- `app.js` is the simplest script. It has no guard, no counters, and names its
  outputs `_page<N>.pdf` instead of `_pagina<N>.pdf`.

The model has one walker. The `Variant` (`Desktop`, `Counting`, `Early`)
selects each copy's marker, guard, counters and log.

## Model

The file system is a value:

- `FileTree.Node` is the tree the walk reads. A directory keeps its `readdir`
  listing in order. A directory whose `readdir` throws, and an entry whose
  `stat` throws, are kept too, because both abort the walk.
- A file is reduced to what loading it gives (`Doc`): a page count, or the
  error that `readFile`/`PDFDocument.load` throws.
- Writes are appended to the run's `written` list. Each `Output` records its
  path, its source and the source page it copies.
- A write fails in two cases: when a directory in the same listing already has
  the output's name (EISDIR), or when the disk's `writeErrors` map names the
  path.
- A file that this run has already overwritten is read back as a one-page
  document.
- A `readdir` or `stat` failure rejects the whole run (main.js:54, 58, 107).
- A missing or empty `argv[2]` exits with code 1 before any traversal
  (app2.js:74-77, app.js:61-64).
- `Paths.Join` follows `path.join` for an entry name: under `.` or the empty
  path the result is the name alone, and a directory that already ends in
  `/`, such as the root `/`, gets no second separator.

The walk has a specification and an implementation:

- **Specification.** `FileTree.Events` flattens the tree into its pre-order
  list of steps: a PDF to split, or a fault. `WalkSpec.Fold` applies the
  per-file step `SplitSpec.SplitFile` to these steps in order and stops at the
  first fault.
- **Implementation.** `Runner.SplitRun` is the imperative walker. It is a class
  whose fields are the two counters, the log and the written files, and whose
  recursive `ProcessDirectory` and looping `ProcessPdf`/`WritePages` are proved
  against that specification.

`details` entries are kept as `Detail` values. `SplitSpec.Render` gives the
exact text `main.js` pushes for each one.

| member | source | states |
|---|---|---|
| Paths.PdfNameIff | main.js:62 | the extension test holds exactly when the name has at least one character before a `.pdf` ending in any mix of cases (both directions) |
| Paths.PdfNameIgnoresCase | app2.js:29 | names equal after lower-casing are both PDFs or both not |
| Paths.LastDot | main.js:62 | the index found holds a dot and no later character is a dot, or -1 when there is no dot (the search inside `path.extname`) |
| Paths.BaseNameStrips | main.js:79 | the base name is the entry name minus exactly a trailing lower-case `.pdf` (both directions); any other ending is kept |
| Paths.UpperCaseExtensionKept | main.js:79 | `X.PDF` passes the test and gives `X.PDF_pagina1.pdf` |
| Paths.UpperCaseNamesCollide | app2.js:41 | `a.PDF` and `a.PDF.pdf` are both PDFs yet get the same output names |
| Paths.Decimal | main.js:90 | the page number is rendered with digits only, at least one, and with no leading zero for positive numbers |
| Paths.DecimalRoundTrip | main.js:90 | reading the rendered page number back gives the number |
| Paths.OutputNameInjective | main.js:90 | two page numbers of one document never give the same output name |
| Paths.OutputNotSource | main.js:90 | an output name never equals its source's name |
| Paths.JoinInjective | main.js:57 | two entries of one directory share a path only if they share a name |
| FileTree.NoFaultsIffHealthy | main.js:53-66 | the walk meets a `readdir`/`stat` failure exactly when some directory cannot be listed or some entry cannot be stat'ed (both directions) |
| FileTree.DirEventsPrefix | main.js:56 | the steps of the first k entries come before those of later entries |
| FileTree.SubtreeEmbedded | main.js:60-61 | a subdirectory at any depth is walked exactly as a root is, completely, right after the entries listed before it |
| SplitSpec.FirstFailure | main.js:84-91 | the index found is the first page whose write fails, or the page count when none fails |
| SplitSpec.SplitPagesClosedForm | main.js:84-95 | the page loop writes, counts and logs exactly the pages before the first failing write, in ascending order, and returns that write's error |
| SplitSpec.OutputsNamed | main.js:90-91 | output j is the copy of page j, written beside the source as `<base><marker><j+1>.pdf` |
| SplitSpec.OutputsDistinct | app2.js:52 | the outputs of one document have pairwise distinct paths, none equal to the source |
| SplitSpec.SplitAllPages | main.js:76-100 | a split whose writes all succeed writes every page in order, adds the page count to `generatedPdfsCount` and one to `processedFilesCount`, and logs `Procesando` then one `Pagina` entry per page |
| SplitSpec.SplitSkipsShort | main.js:96-100 | with the guard, a document of at most one page writes nothing, logs `Procesando` then the skip entry, and still counts as processed |
| SplitSpec.SplitLoadFails | main.js:76-104 | a document that cannot be read or loaded writes and counts nothing, and logs `Procesando` then one error entry |
| SplitSpec.SplitWriteFails | main.js:84-104 | a write failing at page k keeps pages before k written and counted, logs their entries then one error entry, and does not count the file as processed |
| WalkSpec.FoldAppend | main.js:56-65 | walking two step lists one after the other is walking their concatenation, and a fault stops the rest |
| WalkSpec.FoldFault | main.js:107 | the walk ends early exactly at the first `readdir`/`stat` failure, which is not caught |
| WalkSpec.SplitFileEffect | app2.js:36-66 | one file only appends outputs; with counters, `generatedPdfsCount` grows by the outputs written and `processedFilesCount` by at most one; app.js moves neither, and only main.js logs |
| WalkSpec.SplitFileLog | main.js:69-105 | in main.js each file logs one `Procesando` entry and ends either counted as processed or with one error entry |
| WalkSpec.FoldEffect | main.js:47-109 | over a walk: outputs only appended; `generatedPdfsCount` grows by one per file written; main.js logs `Procesando` for exactly the files met before the first fault, in walk order; processed plus error entries equals that number |
| WalkSpec.CountingMatchesDesktop | app2.js:14-66 | app2.js ends with exactly main.js's counters, files written and fault, and an untouched log |
| WalkSpec.SplitFileIgnoresLog | app2.js:43-62 | app2.js's per-file step is main.js's step without the log |
| WalkSpec.RerunWritesNothing | app2.js:45-60 | with the guard, a walk over files of at most one page, such as earlier outputs, writes and generates nothing |
| WalkSpec.EarlyWritesEveryPage | app.js:39-49 | app.js writes every page of a loaded document as `<base>_page<i+1>.pdf`, including a one-page document, writes nothing for zero pages, and counts and logs nothing |
| WalkSpec.DocsScenario | main.js:47-110 | a root with a three-page `a.pdf` and `sub/b.pdf` of one page gives processed 2, generated 3, outputs `a_pagina1..3.pdf` beside `a.pdf`, and a final skip entry for `b.pdf` |
| Runner.SplitRun.constructor | main.js:48-50 | both counters start at 0, the log and the written files empty |
| Runner.SplitRun.ProcessDirectory | main.js:53-66 | lists the directory once, recurses into directories, splits files whose lower-cased extension is `.pdf`, ignores other files, in listing order; the new state and fault are the fold of the tree's pre-order steps |
| Runner.SplitRun.ProcessPdf | main.js:69-105 | the new state is the per-file step: log start, load, skip short documents, or split; load and write failures are caught and logged |
| Runner.SplitRun.WritePages | main.js:84-95 | the page loop's new state and error are those of the page-loop specification |
| Desktop.ProcessPDFs | main.js:47-110 | resolves with the counters and rendered log of a fresh run, exactly when the tree is healthy, else rejects at the first fault; `generatedPdfsCount` equals the files written; `Procesando` entries name the PDFs met, in walk order; processed plus errors equals their number |
| Console.CountingScript | app2.js:71-85 | exit code 1 with no traversal when `argv[2]` is missing or empty; otherwise prints totals exactly when the tree is healthy, and they and the written files equal main.js's |
| Console.PlainScript | app.js:58-68 | exit code 1 with no traversal when `argv[2]` is missing or empty; otherwise walks with the unguarded `_page` step and completes exactly when the tree is healthy |

## Left out

- The Electron window, app lifecycle and directory-picker IPC (main.js:1-44)
  and preload.js are UI glue.
- The HTTP server (main.js:113-134) is network I/O. What it does with a
  rejected `processPDFs` is not modelled.
- Console output of app.js and app2.js is not modelled. Only main.js's
  `details` and app2.js's final totals are observable results.
- pdf-lib is reduced to page counts. An output records which page of which
  source it copies, not its bytes. Copy and save failures count as write
  failures of that page.
- `readFile` failures and `PDFDocument.load` failures are one case: the file's
  `Unloadable` reason.
- `Paths.Join` does not do the rest of `path.join`'s normalisation: `..`
  and `.` segments inside the directory (`./docs`, `a/../b`), repeated
  separators inside it, and Windows `\` separators are kept as written, so
  the logged and written paths for such a root differ from the program's.
- Paths compare as exact strings, both when a path already written is read
  back and in the EISDIR test against a sibling directory's name. This is a
  case-sensitive file system without Unicode normalisation. On the
  case-insensitive defaults of macOS and Windows, writing `a_pagina1.pdf`
  also replaces a listed `A_PAGINA1.PDF` and fails against a directory
  `A_pagina1.pdf`; the model does neither.
- `Paths.Lower` lower-cases only A-Z, where `toLowerCase` covers all of
  Unicode. No other character lower-cases to `.`, `p`, `d` or `f`, so the `.pdf`
  test gives the same answer.
- `Paths.BaseName` is applied to the entry name, the last segment of the path
  `path.basename` receives.
- A write through a dangling symbolic link is not modelled. The entry stays
  one that cannot be stat'ed.
- async/await is modelled as sequential code, since each step is awaited in
  order.
