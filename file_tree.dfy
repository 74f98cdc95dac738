/** The directory tree the walk reads, as a value, and the order in which the
    walk meets its PDF files: a pre-order list of events that the imperative
    walk is proved to follow. */
module FileTree {
  import opened Paths

  /** What reading a file and loading it as a PDF gives: its page count, or
      the error that `readFile` or `PDFDocument.load` throws. */
  datatype Doc = Pdf(pages: nat) | Unloadable(reason: string)

  /** A directory entry as `fs.stat` and `fs.readdir` report it when the walk
      reaches it; `entries` is the listing, in the order `readdir` returns it. */
  datatype Node =
    | Dir(name: string, entries: seq<Node>)
    | Unlistable(name: string)   // stat reports a directory, readdir throws
    | File(name: string, doc: Doc)
    | Unstatable(name: string)   // stat throws

  /** `stat(...).isDirectory()` */
  predicate IsDirectory(e: Node)
  {
    e.Dir? || e.Unlistable?
  }

  /** Names in a listing that are directories: writing a file there fails. */
  function SubdirNames(es: seq<Node>): set<string>
  {
    set e | e in es && IsDirectory(e) :: e.name
  }

  /** A PDF file the walk hands to the splitter: its directory, its name, its
      content when the walk started, and the names of the directories beside
      it. */
  datatype PdfEntry = PdfEntry(dir: Path, name: string, doc: Doc, subdirs: set<string>)

  /** A step of the walk: split a file, or an uncaught failure of `readdir`
      or `stat` at a path. */
  datatype Event = Split(file: PdfEntry) | Fault(path: Path)

  /** The steps of `processDirectory(dir)` when `node` is what lies at `dir`:
      `readdir` fails unless it is a readable directory. */
  function Events(dir: Path, node: Node): seq<Event>
    decreases node, 1
  {
    if node.Dir? then DirEvents(dir, node, |node.entries|) else [Fault(dir)]
  }

  /** The steps for the first `k` entries of a directory's listing, in order. */
  function DirEvents(dir: Path, node: Node, k: nat): seq<Event>
    requires node.Dir? && k <= |node.entries|
    decreases node, 0, k
  {
    if k == 0 then [] else DirEvents(dir, node, k - 1) + EntryEvents(dir, node, k - 1)
  }

  /** The steps for entry `i` of a directory: a directory is walked, an entry
      that cannot be stat'ed aborts, a file is split when its name is a PDF
      name and ignored otherwise. */
  function EntryEvents(dir: Path, node: Node, i: nat): seq<Event>
    requires node.Dir? && i < |node.entries|
    decreases node, 0, i
  {
    var e := node.entries[i];
    var fullPath := Join(dir, e.name);
    if IsDirectory(e) then Events(fullPath, e)
    else if e.Unstatable? then [Fault(fullPath)]
    else if IsPdfName(e.name) then [Split(PdfEntry(dir, e.name, e.doc, SubdirNames(node.entries)))]
    else []
  }

  predicate NoFaults(evs: seq<Event>)
  {
    forall k :: 0 <= k < |evs| ==> evs[k].Split?
  }

  /** Every directory can be listed and every entry can be stat'ed. */
  predicate Healthy(node: Node)
  {
    node.Dir? && forall i :: 0 <= i < |node.entries| ==> node.entries[i].File? || Healthy(node.entries[i])
  }

  lemma NoFaultsAppend(a: seq<Event>, b: seq<Event>)
    ensures NoFaults(a + b) <==> NoFaults(a) && NoFaults(b)
  {
    if NoFaults(a) && NoFaults(b) {
      forall k | 0 <= k < |a + b| ensures (a + b)[k].Split? {
        if k >= |a| { assert (a + b)[k] == b[k - |a|]; }
      }
    }
    if NoFaults(a + b) {
      forall k | 0 <= k < |b| ensures b[k].Split? { assert (a + b)[|a| + k] == b[k]; }
      forall k | 0 <= k < |a| ensures a[k].Split? { assert (a + b)[k] == a[k]; }
    }
  }

  /** The walk meets no failure exactly when the tree is healthy. */
  lemma {:induction false} NoFaultsIffHealthy(dir: Path, node: Node)
    ensures NoFaults(Events(dir, node)) <==> Healthy(node)
    decreases node, 1
  {
    if node.Dir? {
      DirNoFaults(dir, node, |node.entries|);
    } else {
      assert Events(dir, node)[0].Fault?;
    }
  }

  lemma {:induction false} DirNoFaults(dir: Path, node: Node, k: nat)
    requires node.Dir? && k <= |node.entries|
    ensures NoFaults(DirEvents(dir, node, k)) <==>
            forall i :: 0 <= i < k ==> node.entries[i].File? || Healthy(node.entries[i])
    decreases node, 0, k
  {
    if k > 0 {
      DirNoFaults(dir, node, k - 1);
      NoFaultsAppend(DirEvents(dir, node, k - 1), EntryEvents(dir, node, k - 1));
      var e := node.entries[k - 1];
      if IsDirectory(e) {
        NoFaultsIffHealthy(Join(dir, e.name), e);
      } else if e.Unstatable? {
        assert EntryEvents(dir, node, k - 1)[0].Fault?;
      }
    }
  }

  /** The listing of a directory is consumed in order: the steps for the
      first `k` entries come before those of the rest. */
  lemma {:induction false} DirEventsPrefix(dir: Path, node: Node, k: nat, m: nat)
    requires node.Dir? && k <= m <= |node.entries|
    ensures DirEvents(dir, node, k) <= DirEvents(dir, node, m)
    decreases m
  {
    if k < m {
      DirEventsPrefix(dir, node, k, m - 1);
    }
  }

  /** A subdirectory at any depth is walked the same way as the root: its
      whole walk appears, unchanged and contiguous, inside its parent's, right
      after the entries listed before it. */
  lemma SubtreeEmbedded(dir: Path, node: Node, i: nat)
    requires node.Dir? && i < |node.entries| && IsDirectory(node.entries[i])
    ensures var sub := Events(Join(dir, node.entries[i].name), node.entries[i]);
            var pre := DirEvents(dir, node, i);
            pre + sub <= Events(dir, node)
  {
    var sub := Events(Join(dir, node.entries[i].name), node.entries[i]);
    DirEventsPrefix(dir, node, i + 1, |node.entries|);
    assert DirEvents(dir, node, i + 1) == DirEvents(dir, node, i) + sub;
  }
}
