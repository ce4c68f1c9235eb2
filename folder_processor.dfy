/**
 * `process_folders`: walk the input folders in order, run every regular file
 * that passes the extension filter through `process_file`, and write the
 * non-empty results either one file per document or one combined array per
 * folder.
 *
 * The file system is a map from each directory to its listing, in listing
 * order; a path that is not a key is not a directory. The effect of a run is
 * the ordered sequence of JSON writes it issues, plus whether an extractor's
 * exception ended the run early.
 */
module FolderProcessor {
  import opened Options
  import opened PathOps
  import opened Extraction
  import opened OutputNames

  /** One name returned by `os.listdir`, with what `os.path.isfile` says of it. */
  datatype Entry = Entry(name: string, isRegularFile: bool)

  type FileSystem = map<string, seq<Entry>>

  /** What one `json.dump` writes: one document's fields, or a folder's array. */
  datatype Payload = Single(info: Info) | Combined(items: seq<Info>)

  datatype Write = Write(path: string, payload: Payload)

  /** The `output_dir` and `combine_output` arguments. */
  datatype Config = Config(outputDir: string, combine: bool)

  /** The entries the inner loop hands to `process_file`. */
  predicate Considered(e: Entry)
  {
    e.isRegularFile && IsSupported(e.name)
  }

  /**
   * What the inner loop learns about one entry: `None` when it skips the entry
   * (not a regular file, or its name fails the filter), otherwise what
   * `process_file` makes of it.
   */
  type Classifier = Entry -> Option<FileResult>

  function Classify(be: Backends, folder: string): Classifier
  {
    e => if Considered(e) then Some(ProcessFile(Join(folder, e.name), be)) else None
  }

  /**
   * The state of the inner loop over one folder: the per-file writes issued so
   * far, `combined_data`, and whether an exception has escaped.
   */
  datatype FolderState = FolderState(writes: seq<Write>, combined: seq<Info>, aborted: bool)

  const FolderStart := FolderState([], [], false)

  /** One iteration of the inner loop. */
  function EntryStep(cfg: Config, classify: Classifier, st: FolderState, e: Entry): FolderState
  {
    if st.aborted then st
    else
      match classify(e)
      case None => st
      case Some(Raised) => st.(aborted := true)
      case Some(Unsupported) => st
      case Some(Extracted(info)) =>
        if info == map[] then st
        else if cfg.combine then st.(combined := st.combined + [info])
        else st.(writes := st.writes + [Write(Join(cfg.outputDir, PerFileName(e.name)), Single(info))])
  }

  /** The inner loop run over `entries`, from `st`. */
  function FolderAfter(cfg: Config, classify: Classifier, st: FolderState, entries: seq<Entry>): FolderState
    decreases |entries|
  {
    if entries == [] then st
    else EntryStep(cfg, classify, FolderAfter(cfg, classify, st, entries[..|entries| - 1]), entries[|entries| - 1])
  }

  function FolderSpec(cfg: Config, classify: Classifier, entries: seq<Entry>): FolderState
  {
    FolderAfter(cfg, classify, FolderStart, entries)
  }

  /**
   * What a folder writes once its inner loop is over: its per-file writes, then
   * the combined file if combining and `combined_data` is not empty. An
   * exception escaping the inner loop skips the combined write.
   */
  function FolderWrites(cfg: Config, folder: string, fst: FolderState): seq<Write>
  {
    fst.writes +
      if cfg.combine && fst.combined != [] && !fst.aborted
      then [Write(Join(cfg.outputDir, CombinedName(folder)), Combined(fst.combined))]
      else []
  }

  datatype RunState = RunState(writes: seq<Write>, aborted: bool)

  const RunStart := RunState([], false)

  /** One iteration of the outer loop: a non-directory is skipped. */
  function FolderStep(fs: FileSystem, cfg: Config, be: Backends, st: RunState, folder: string): RunState
  {
    if st.aborted || folder !in fs then st
    else
      var fst := FolderSpec(cfg, Classify(be, folder), fs[folder]);
      RunState(st.writes + FolderWrites(cfg, folder, fst), fst.aborted)
  }

  function RunAfter(fs: FileSystem, cfg: Config, be: Backends, st: RunState, folders: seq<string>): RunState
    decreases |folders|
  {
    if folders == [] then st
    else FolderStep(fs, cfg, be, RunAfter(fs, cfg, be, st, folders[..|folders| - 1]), folders[|folders| - 1])
  }

  /** The effect of `process_folders(folders, cfg.outputDir, cfg.combine)`. */
  function Run(fs: FileSystem, cfg: Config, be: Backends, folders: seq<string>): RunState
  {
    RunAfter(fs, cfg, be, RunStart, folders)
  }

  lemma {:induction false} FolderAbortedStays(cfg: Config, classify: Classifier, st: FolderState, entries: seq<Entry>)
    requires st.aborted
    ensures FolderAfter(cfg, classify, st, entries) == st
    decreases |entries|
  {
    if entries != [] {
      FolderAbortedStays(cfg, classify, st, entries[..|entries| - 1]);
    }
  }

  lemma {:induction false} FolderAfterAppend(cfg: Config, classify: Classifier, st: FolderState, a: seq<Entry>, b: seq<Entry>)
    ensures FolderAfter(cfg, classify, st, a + b) == FolderAfter(cfg, classify, FolderAfter(cfg, classify, st, a), b)
    decreases |b|
  {
    if b == [] {
      assert a + b == a;
    } else {
      assert (a + b)[..|a + b| - 1] == a + b[..|b| - 1];
      FolderAfterAppend(cfg, classify, st, a, b[..|b| - 1]);
    }
  }

  lemma {:induction false} RunAbortedStays(fs: FileSystem, cfg: Config, be: Backends, st: RunState, folders: seq<string>)
    requires st.aborted
    ensures RunAfter(fs, cfg, be, st, folders) == st
    decreases |folders|
  {
    if folders != [] {
      RunAbortedStays(fs, cfg, be, st, folders[..|folders| - 1]);
    }
  }

  lemma {:induction false} RunAfterAppend(fs: FileSystem, cfg: Config, be: Backends, st: RunState, a: seq<string>, b: seq<string>)
    ensures RunAfter(fs, cfg, be, st, a + b) == RunAfter(fs, cfg, be, RunAfter(fs, cfg, be, st, a), b)
    decreases |b|
  {
    if b == [] {
      assert a + b == a;
    } else {
      assert (a + b)[..|a + b| - 1] == a + b[..|b| - 1];
      RunAfterAppend(fs, cfg, be, st, a, b[..|b| - 1]);
    }
  }

  lemma ClassifySkips(be: Backends, folder: string, e: Entry)
    requires !Considered(e)
    ensures Classify(be, folder)(e) == None
  {
  }

  lemma ClassifyTakes(be: Backends, folder: string, e: Entry)
    requires Considered(e)
    ensures Classify(be, folder)(e) == Some(ProcessFile(Join(folder, e.name), be))
  {
  }

  /** Extending the listing by one entry runs one more step of the inner loop. */
  lemma FolderSpecSnoc(cfg: Config, classify: Classifier, listing: seq<Entry>, j: nat)
    requires j < |listing|
    ensures FolderSpec(cfg, classify, listing[..j + 1])
         == EntryStep(cfg, classify, FolderSpec(cfg, classify, listing[..j]), listing[j])
  {
    assert listing[..j + 1][..j] == listing[..j];
  }

  /**
   * The body of the outer loop of `process_folders` for one directory: the
   * per-file writes it issues in order, its final `combined_data`, and whether
   * a text extractor raised (which ends the loop at that entry).
   */
  method ScanFolder(folder: string, listing: seq<Entry>, cfg: Config, be: Backends)
    returns (writes: seq<Write>, combined: seq<Info>, aborted: bool)
    ensures FolderState(writes, combined, aborted) == FolderSpec(cfg, Classify(be, folder), listing)
  {
    writes, combined, aborted := [], [], false;
    var j := 0;
    while j < |listing|
      invariant 0 <= j <= |listing|
      invariant FolderState(writes, combined, false) == FolderSpec(cfg, Classify(be, folder), listing[..j])
    {
      ghost var before := FolderState(writes, combined, false);
      FolderSpecSnoc(cfg, Classify(be, folder), listing, j);
      var e := listing[j];
      if e.isRegularFile && IsSupported(e.name) {
        ClassifyTakes(be, folder, e);
        var result := ProcessFile(Join(folder, e.name), be);
        if result.Raised? {
          aborted := true;
          assert listing[..j + 1] + listing[j + 1..] == listing;
          FolderAfterAppend(cfg, Classify(be, folder), FolderStart, listing[..j + 1], listing[j + 1..]);
          FolderAbortedStays(cfg, Classify(be, folder), FolderState(writes, combined, true), listing[j + 1..]);
          return;
        }
        if result.Extracted? && result.info != map[] {
          if cfg.combine {
            combined := combined + [result.info];
          } else {
            writes := writes + [Write(Join(cfg.outputDir, PerFileName(e.name)), Single(result.info))];
          }
        }
      } else {
        ClassifySkips(be, folder, e);
      }
      assert FolderState(writes, combined, false) == EntryStep(cfg, Classify(be, folder), before, e);
      j := j + 1;
    }
    assert listing[..j] == listing;
  }

  /**
   * `process_folders`, issuing its writes in order into `writes`. `aborted`
   * is true when a text extractor raised; the writes issued before that stand.
   */
  method ProcessFolders(fs: FileSystem, folders: seq<string>, cfg: Config, be: Backends)
    returns (writes: seq<Write>, aborted: bool)
    ensures RunState(writes, aborted) == Run(fs, cfg, be, folders)
  {
    writes, aborted := [], false;
    var i := 0;
    while i < |folders|
      invariant 0 <= i <= |folders|
      invariant RunState(writes, false) == RunAfter(fs, cfg, be, RunStart, folders[..i])
    {
      assert folders[..i + 1][..i] == folders[..i];
      var folder := folders[i];
      if folder in fs {
        var folderWrites, combined, folderAborted := ScanFolder(folder, fs[folder], cfg, be);
        writes := writes + folderWrites;
        if folderAborted {
          aborted := true;
          assert RunAfter(fs, cfg, be, RunStart, folders[..i + 1]) == RunState(writes, true);
          assert folders[..i + 1] + folders[i + 1..] == folders;
          RunAfterAppend(fs, cfg, be, RunStart, folders[..i + 1], folders[i + 1..]);
          RunAbortedStays(fs, cfg, be, RunState(writes, true), folders[i + 1..]);
          return;
        }
        if cfg.combine && combined != [] {
          writes := writes + [Write(Join(cfg.outputDir, CombinedName(folder)), Combined(combined))];
        }
      }
      i := i + 1;
    }
    assert folders[..i] == folders;
  }
}
