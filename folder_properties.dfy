/**
 * What `process_folders` guarantees, stated against independent reference
 * definitions: which entries contribute, in which order, under which output
 * names, what survives an exception, and what ends up on disk.
 *
 * The inner loop sees an entry only through a `Classifier`, so most facts
 * about one folder hold for every classifier; the ones about particular names
 * instantiate it with `Classify`.
 */
module FolderProperties {
  import opened Options
  import opened PathOps
  import opened Extraction
  import opened FolderProcessor
  import opened OutputNames

  /** The fields an entry contributes: only a dispatched, parsed entry with a non-empty result has any. */
  function Hit(c: Classifier, e: Entry): Option<Info>
  {
    match c(e)
    case Some(Extracted(info)) => if info == map[] then None else Some(info)
    case _ => None
  }

  /** The entry makes a text extractor raise. */
  predicate Raises(c: Classifier, e: Entry)
  {
    c(e) == Some(Raised)
  }

  /** Neither contributes nor raises. */
  predicate Inert(c: Classifier, e: Entry)
  {
    Hit(c, e).None? && !Raises(c, e)
  }

  function HitOf(c: Classifier, e: Entry): seq<(string, Info)>
  {
    match Hit(c, e)
    case Some(info) => [(e.name, info)]
    case None => []
  }

  /** The contributing entries' names and fields, in listing order. */
  function Hits(c: Classifier, entries: seq<Entry>): seq<(string, Info)>
  {
    if entries == [] then [] else HitOf(c, entries[0]) + Hits(c, entries[1..])
  }

  /** The listing positions of the contributing entries. */
  function HitIndices(c: Classifier, entries: seq<Entry>): set<nat>
  {
    set i: nat | i < |entries| && Hit(c, entries[i]).Some?
  }

  function Values(hits: seq<(string, Info)>): seq<Info>
  {
    if hits == [] then [] else [hits[0].1] + Values(hits[1..])
  }

  /** One `Single` write per hit, named after the input file's stem. */
  function PerFileWrites(outputDir: string, hits: seq<(string, Info)>): seq<Write>
  {
    if hits == [] then []
    else [Write(Join(outputDir, PerFileName(hits[0].0)), Single(hits[0].1))] + PerFileWrites(outputDir, hits[1..])
  }

  predicate NoRaise(c: Classifier, entries: seq<Entry>)
  {
    forall i :: 0 <= i < |entries| ==> !Raises(c, entries[i])
  }

  /**
   * For the classifier of a real folder: an entry raises exactly when it passes
   * the filter and its extractor raises, and it contributes exactly the
   * non-empty fields `process_file` returns for a filtered-in entry.
   */
  lemma ClassifyMeaning(be: Backends, folder: string, e: Entry)
    ensures Raises(Classify(be, folder), e) <==> Considered(e) && ProcessFile(Join(folder, e.name), be).Raised?
    ensures Hit(Classify(be, folder), e).Some? <==>
      Considered(e) && ProcessFile(Join(folder, e.name), be).Extracted? && ProcessFile(Join(folder, e.name), be).info != map[]
    ensures Hit(Classify(be, folder), e).Some? ==> Hit(Classify(be, folder), e).value == ProcessFile(Join(folder, e.name), be).info
  {
  }

  // ---------------------------------------------------------------- folders

  lemma {:induction false} HitsSnoc(c: Classifier, entries: seq<Entry>, e: Entry)
    ensures Hits(c, entries + [e]) == Hits(c, entries) + HitOf(c, e)
    decreases |entries|
  {
    if entries == [] {
      assert [e][1..] == [];
    } else {
      assert (entries + [e])[1..] == entries[1..] + [e];
      HitsSnoc(c, entries[1..], e);
    }
  }

  lemma {:induction false} ValuesAppend(a: seq<(string, Info)>, b: seq<(string, Info)>)
    ensures Values(a + b) == Values(a) + Values(b)
    ensures |Values(a)| == |a|
    decreases |a|
  {
    if a == [] {
      assert a + b == b;
    } else {
      assert (a + b)[1..] == a[1..] + b;
      ValuesAppend(a[1..], b);
    }
  }

  lemma {:induction false} PerFileWritesAppend(outputDir: string, a: seq<(string, Info)>, b: seq<(string, Info)>)
    ensures PerFileWrites(outputDir, a + b) == PerFileWrites(outputDir, a) + PerFileWrites(outputDir, b)
    decreases |a|
  {
    if a == [] {
      assert a + b == b;
    } else {
      assert (a + b)[1..] == a[1..] + b;
      PerFileWritesAppend(outputDir, a[1..], b);
    }
  }

  /** One step of the inner loop, in terms of the entry's hit. */
  lemma EntryStepByHit(cfg: Config, c: Classifier, st: FolderState, e: Entry)
    requires !st.aborted && !Raises(c, e)
    ensures EntryStep(cfg, c, st, e)
         == match Hit(c, e)
            case None => st
            case Some(info) =>
              if cfg.combine then st.(combined := st.combined + [info])
              else st.(writes := st.writes + [Write(Join(cfg.outputDir, PerFileName(e.name)), Single(info))])
  {
  }

  lemma EntryStepAborts(cfg: Config, c: Classifier, st: FolderState, e: Entry)
    ensures EntryStep(cfg, c, st, e).aborted == (st.aborted || Raises(c, e))
    ensures Raises(c, e) && !st.aborted ==> EntryStep(cfg, c, st, e) == st.(aborted := true)
  {
  }

  /**
   * Without an exception, a folder produces exactly its hits, in listing order:
   * as `combined_data` when combining and as one per-file write per hit
   * otherwise, never both.
   */
  lemma {:induction false} FolderWithoutRaise(cfg: Config, c: Classifier, entries: seq<Entry>)
    requires NoRaise(c, entries)
    ensures FolderSpec(cfg, c, entries)
         == FolderState(
              if cfg.combine then [] else PerFileWrites(cfg.outputDir, Hits(c, entries)),
              if cfg.combine then Values(Hits(c, entries)) else [],
              false)
    decreases |entries|
  {
    if entries != [] {
      var prefix, e := entries[..|entries| - 1], entries[|entries| - 1];
      assert entries == prefix + [e];
      assert NoRaise(c, prefix) by {
        forall i | 0 <= i < |prefix| ensures !Raises(c, prefix[i]) {
          assert prefix[i] == entries[i];
        }
      }
      assert !Raises(c, entries[|entries| - 1]);
      FolderWithoutRaise(cfg, c, prefix);
      var st := FolderSpec(cfg, c, prefix);
      assert FolderSpec(cfg, c, entries) == EntryStep(cfg, c, st, e);
      EntryStepByHit(cfg, c, st, e);
      var hits := Hits(c, prefix);
      HitsSnoc(c, prefix, e);
      ValuesAppend(hits, HitOf(c, e));
      PerFileWritesAppend(cfg.outputDir, hits, HitOf(c, e));
      match Hit(c, e)
      case None =>
        assert HitOf(c, e) == [];
        assert hits + [] == hits;
      case Some(info) =>
        assert HitOf(c, e) == [(e.name, info)];
        assert Values([(e.name, info)]) == [info];
        assert PerFileWrites(cfg.outputDir, [(e.name, info)])
            == [Write(Join(cfg.outputDir, PerFileName(e.name)), Single(info))];
    }
  }

  /** A folder's inner loop stops exactly when some entry makes an extractor raise. */
  lemma {:induction false} FolderAbortsIff(cfg: Config, c: Classifier, entries: seq<Entry>)
    ensures FolderSpec(cfg, c, entries).aborted <==> exists i :: 0 <= i < |entries| && Raises(c, entries[i])
    decreases |entries|
  {
    if entries != [] {
      var prefix, e := entries[..|entries| - 1], entries[|entries| - 1];
      var st := FolderSpec(cfg, c, prefix);
      FolderAbortsIff(cfg, c, prefix);
      assert FolderSpec(cfg, c, entries) == EntryStep(cfg, c, st, e);
      EntryStepAborts(cfg, c, st, e);
      if st.aborted {
        var i :| 0 <= i < |prefix| && Raises(c, prefix[i]);
        assert entries[i] == prefix[i];
      } else if Raises(c, e) {
        assert entries[|prefix|] == e;
      } else {
        forall i | 0 <= i < |entries| ensures !Raises(c, entries[i]) {
          if i < |prefix| {
            assert entries[i] == prefix[i];
          }
        }
      }
    }
  }

  /**
   * The first entry that raises ends the folder: what came before it stands,
   * and nothing after it is looked at.
   */
  lemma FolderStopsAtRaise(cfg: Config, c: Classifier, entries: seq<Entry>, k: nat)
    requires k < |entries| && Raises(c, entries[k])
    requires NoRaise(c, entries[..k])
    ensures FolderSpec(cfg, c, entries) == FolderSpec(cfg, c, entries[..k]).(aborted := true)
  {
    var st := FolderSpec(cfg, c, entries[..k]);
    FolderWithoutRaise(cfg, c, entries[..k]);
    assert entries[..k + 1][..k] == entries[..k];
    assert FolderSpec(cfg, c, entries[..k + 1]) == EntryStep(cfg, c, st, entries[k]);
    EntryStepAborts(cfg, c, st, entries[k]);
    assert entries[..k + 1] + entries[k + 1..] == entries;
    FolderAfterAppend(cfg, c, FolderStart, entries[..k + 1], entries[k + 1..]);
    FolderAbortedStays(cfg, c, st.(aborted := true), entries[k + 1..]);
  }

  lemma HitIndicesSnoc(c: Classifier, entries: seq<Entry>, e: Entry)
    ensures HitIndices(c, entries + [e])
         == HitIndices(c, entries) + if Hit(c, e).Some? then {|entries|} else {}
    ensures |entries| !in HitIndices(c, entries)
  {
    var all := entries + [e];
    forall i: nat | i < |entries| ensures all[i] == entries[i] {}
    assert all[|entries|] == e;
  }

  /** The number of hits is the number of listing positions that contribute. */
  lemma {:induction false} HitsCount(c: Classifier, entries: seq<Entry>)
    ensures |Hits(c, entries)| == |HitIndices(c, entries)|
    decreases |entries|
  {
    if entries != [] {
      var prefix, e := entries[..|entries| - 1], entries[|entries| - 1];
      assert entries == prefix + [e];
      HitsCount(c, prefix);
      HitsSnoc(c, prefix, e);
      HitIndicesSnoc(c, prefix, e);
    }
  }

  /**
   * Combine mode: `combined_data` holds one item per contributing entry, and
   * they are the hits' fields in listing order.
   */
  lemma CombinedMatchesHits(cfg: Config, c: Classifier, entries: seq<Entry>)
    requires cfg.combine && NoRaise(c, entries)
    ensures FolderSpec(cfg, c, entries).combined == Values(Hits(c, entries))
    ensures |FolderSpec(cfg, c, entries).combined| == |HitIndices(c, entries)|
  {
    FolderWithoutRaise(cfg, c, entries);
    ValuesAppend(Hits(c, entries), []);
    HitsCount(c, entries);
  }

  /**
   * An inert entry (filtered out, not a regular file, unsupported by the
   * dispatch, or with an empty result) can be removed from the listing without
   * changing anything the folder does.
   */
  lemma InertEntryHasNoEffect(cfg: Config, c: Classifier, before: seq<Entry>, e: Entry, after: seq<Entry>)
    requires Inert(c, e)
    ensures FolderSpec(cfg, c, before + [e] + after) == FolderSpec(cfg, c, before + after)
  {
    var st := FolderSpec(cfg, c, before);
    FolderAfterAppend(cfg, c, FolderStart, before + [e], after);
    assert (before + [e])[..|before|] == before;
    assert EntryStep(cfg, c, st, e) == st;
    FolderAfterAppend(cfg, c, FolderStart, before, after);
  }

  /** A ".txt" file is ignored: no write, no error. */
  lemma TextFileIgnored(cfg: Config, be: Backends, folder: string, before: seq<Entry>, stem: string, after: seq<Entry>)
    ensures FolderSpec(cfg, Classify(be, folder), before + [Entry(stem + ".txt", true)] + after)
         == FolderSpec(cfg, Classify(be, folder), before + after)
  {
    TextFileIsNotSupported(stem);
    InertEntryHasNoEffect(cfg, Classify(be, folder), before, Entry(stem + ".txt", true), after);
  }

  /** A regular ".PDF" file passes the filter, yet is dropped like one that did not. */
  lemma UpperCasePdfDropped(cfg: Config, be: Backends, folder: string, before: seq<Entry>, stem: string, after: seq<Entry>)
    ensures Considered(Entry(stem + ".PDF", true))
    ensures FolderSpec(cfg, Classify(be, folder), before + [Entry(stem + ".PDF", true)] + after)
         == FolderSpec(cfg, Classify(be, folder), before + after)
  {
    UpperCasePdfIsUnsupported(folder, stem, be);
    InertEntryHasNoEffect(cfg, Classify(be, folder), before, Entry(stem + ".PDF", true), after);
  }

  /** An entry that is not a regular file is skipped whatever its name. */
  lemma NonRegularEntryIgnored(cfg: Config, be: Backends, folder: string, before: seq<Entry>, name: string, after: seq<Entry>)
    ensures FolderSpec(cfg, Classify(be, folder), before + [Entry(name, false)] + after)
         == FolderSpec(cfg, Classify(be, folder), before + after)
  {
    InertEntryHasNoEffect(cfg, Classify(be, folder), before, Entry(name, false), after);
  }

  /**
   * A model call that fails, or whose reply is not JSON, costs the file its
   * output and nothing else: the batch goes on as if the file were absent.
   */
  lemma FailedModelCallDropsFile(cfg: Config, be: Backends, folder: string, before: seq<Entry>, e: Entry, after: seq<Entry>, text: string)
    requires Dispatch(Join(folder, e.name)).Some?
    requires be.parse(Dispatch(Join(folder, e.name)).value, Join(folder, e.name)) == Text(text)
    requires !be.complete(text).JsonObject?
    ensures FolderSpec(cfg, Classify(be, folder), before + [e] + after)
         == FolderSpec(cfg, Classify(be, folder), before + after)
  {
    InertEntryHasNoEffect(cfg, Classify(be, folder), before, e, after);
  }

  // ---------------------------------------------------------------- outputs

  /** Everything one folder writes, as it would be written on its own. */
  function FolderOutput(fs: FileSystem, cfg: Config, be: Backends, folder: string): seq<Write>
  {
    if folder in fs then FolderWrites(cfg, folder, FolderSpec(cfg, Classify(be, folder), fs[folder])) else []
  }

  predicate FolderRaises(fs: FileSystem, be: Backends, folder: string)
  {
    folder in fs && exists i :: 0 <= i < |fs[folder]| && Raises(Classify(be, folder), fs[folder][i])
  }

  /**
   * Combine mode: a directory writes one file, `<basename>_processed.json`,
   * holding its hits in listing order, and nothing at all when it has no hit.
   */
  lemma CombineModeOutput(fs: FileSystem, cfg: Config, be: Backends, folder: string)
    requires cfg.combine && folder in fs && NoRaise(Classify(be, folder), fs[folder])
    ensures FolderOutput(fs, cfg, be, folder)
         == var hits := Hits(Classify(be, folder), fs[folder]);
            if hits == [] then []
            else [Write(Join(cfg.outputDir, CombinedName(folder)), Combined(Values(hits)))]
  {
    FolderWithoutRaise(cfg, Classify(be, folder), fs[folder]);
    ValuesAppend(Hits(Classify(be, folder), fs[folder]), []);
  }

  /** Per-file mode: a directory writes one `Single` file per hit, in listing order. */
  lemma PerFileModeOutput(fs: FileSystem, cfg: Config, be: Backends, folder: string)
    requires !cfg.combine && folder in fs && NoRaise(Classify(be, folder), fs[folder])
    ensures FolderOutput(fs, cfg, be, folder) == PerFileWrites(cfg.outputDir, Hits(Classify(be, folder), fs[folder]))
  {
    FolderWithoutRaise(cfg, Classify(be, folder), fs[folder]);
  }

  /** The concatenation of the folders' outputs, in the given folder order. */
  function Outputs(fs: FileSystem, cfg: Config, be: Backends, folders: seq<string>): seq<Write>
  {
    if folders == [] then [] else FolderOutput(fs, cfg, be, folders[0]) + Outputs(fs, cfg, be, folders[1..])
  }

  lemma {:induction false} OutputsSnoc(fs: FileSystem, cfg: Config, be: Backends, folders: seq<string>, f: string)
    ensures Outputs(fs, cfg, be, folders + [f]) == Outputs(fs, cfg, be, folders) + FolderOutput(fs, cfg, be, f)
    decreases |folders|
  {
    if folders == [] {
      assert [f][1..] == [];
    } else {
      assert (folders + [f])[1..] == folders[1..] + [f];
      OutputsSnoc(fs, cfg, be, folders[1..], f);
    }
  }

  /**
   * When no extractor raises, a run writes the folders' own outputs one after
   * the other: `combined_data` is reset for every folder, so what a folder
   * writes depends on its own listing only, and a non-directory adds nothing.
   */
  lemma {:induction false} RunWithoutRaise(fs: FileSystem, cfg: Config, be: Backends, folders: seq<string>)
    requires forall i :: 0 <= i < |folders| ==> !FolderRaises(fs, be, folders[i])
    ensures Run(fs, cfg, be, folders) == RunState(Outputs(fs, cfg, be, folders), false)
    decreases |folders|
  {
    if folders != [] {
      var prefix, f := folders[..|folders| - 1], folders[|folders| - 1];
      assert folders == prefix + [f];
      assert forall i :: 0 <= i < |prefix| ==> prefix[i] == folders[i];
      RunWithoutRaise(fs, cfg, be, prefix);
      OutputsSnoc(fs, cfg, be, prefix, f);
      assert !FolderRaises(fs, be, folders[|folders| - 1]);
      if f in fs {
        FolderAbortsIff(cfg, Classify(be, f), fs[f]);
      }
    }
  }

  /** A path that is not a directory is skipped without affecting the other folders. */
  lemma NonDirectorySkipped(fs: FileSystem, cfg: Config, be: Backends, before: seq<string>, f: string, after: seq<string>)
    requires f !in fs
    ensures Run(fs, cfg, be, before + [f] + after) == Run(fs, cfg, be, before + after)
  {
    RunAfterAppend(fs, cfg, be, RunStart, before + [f], after);
    assert (before + [f])[..|before|] == before;
    RunAfterAppend(fs, cfg, be, RunStart, before, after);
  }

  /**
   * An extractor's exception ends the whole run: the writes of the earlier
   * folders and the per-file writes of the failing folder before the failing
   * entry stand, its combined file is never written, and no later folder is
   * processed.
   */
  lemma RaiseEndsRun(fs: FileSystem, cfg: Config, be: Backends, before: seq<string>, f: string, after: seq<string>, k: nat)
    requires forall i :: 0 <= i < |before| ==> !FolderRaises(fs, be, before[i])
    requires f in fs && k < |fs[f]| && Raises(Classify(be, f), fs[f][k]) && NoRaise(Classify(be, f), fs[f][..k])
    ensures Run(fs, cfg, be, before + [f] + after)
         == RunState(
              Outputs(fs, cfg, be, before)
                + if cfg.combine then [] else PerFileWrites(cfg.outputDir, Hits(Classify(be, f), fs[f][..k])),
              true)
  {
    RunWithoutRaise(fs, cfg, be, before);
    FolderStopsAtRaise(cfg, Classify(be, f), fs[f], k);
    FolderWithoutRaise(cfg, Classify(be, f), fs[f][..k]);
    assert (before + [f])[..|before|] == before;
    RunAfterAppend(fs, cfg, be, RunStart, before + [f], after);
    RunAbortedStays(fs, cfg, be, Run(fs, cfg, be, before + [f]), after);
  }

  /** Where a write of the run can come from, in the configured mode. */
  predicate FromMode(fs: FileSystem, cfg: Config, folders: seq<string>, w: Write)
  {
    if cfg.combine then
      w.payload.Combined? && exists f :: f in folders && w.path == Join(cfg.outputDir, CombinedName(f))
    else
      w.payload.Single? &&
      exists f, e :: f in folders && f in fs && e in fs[f] && Considered(e)
                     && w.path == Join(cfg.outputDir, PerFileName(e.name))
  }

  lemma {:induction false} FolderWritesFromMode(cfg: Config, c: Classifier, entries: seq<Entry>)
    ensures cfg.combine ==> FolderSpec(cfg, c, entries).writes == []
    ensures !cfg.combine ==> FolderSpec(cfg, c, entries).combined == []
    ensures forall w :: w in FolderSpec(cfg, c, entries).writes ==>
      w.payload.Single? && exists e :: e in entries && Hit(c, e).Some? && w.path == Join(cfg.outputDir, PerFileName(e.name))
    decreases |entries|
  {
    if entries != [] {
      var prefix, e := entries[..|entries| - 1], entries[|entries| - 1];
      FolderWritesFromMode(cfg, c, prefix);
      assert forall x :: x in prefix ==> x in entries;
      assert e in entries;
    }
  }

  /**
   * Combine mode issues only combined writes, each named after one of the
   * folders, at most one per folder; per-file mode issues only per-file
   * writes, each named after an entry that passed the filter.
   */
  lemma {:induction false} WritesFollowMode(fs: FileSystem, cfg: Config, be: Backends, folders: seq<string>)
    ensures forall w :: w in Run(fs, cfg, be, folders).writes ==> FromMode(fs, cfg, folders, w)
    ensures cfg.combine ==> |Run(fs, cfg, be, folders).writes| <= |folders|
    decreases |folders|
  {
    if folders != [] {
      var prefix, f := folders[..|folders| - 1], folders[|folders| - 1];
      WritesFollowMode(fs, cfg, be, prefix);
      var st := Run(fs, cfg, be, prefix);
      assert Run(fs, cfg, be, folders) == FolderStep(fs, cfg, be, st, f);
      assert forall x :: x in prefix ==> x in folders;
      forall w | w in st.writes ensures FromMode(fs, cfg, folders, w) {
        assert FromMode(fs, cfg, prefix, w);
      }
      if !st.aborted && f in fs {
        var fst := FolderSpec(cfg, Classify(be, f), fs[f]);
        FolderWritesFromMode(cfg, Classify(be, f), fs[f]);
        forall w | w in FolderWrites(cfg, f, fst) ensures FromMode(fs, cfg, folders, w) {
          if w in fst.writes {
            var e :| e in fs[f] && Hit(Classify(be, f), e).Some? && w.path == Join(cfg.outputDir, PerFileName(e.name));
            ClassifyMeaning(be, f, e);
            assert f in folders;
          }
        }
      }
    }
  }

  // ------------------------------------------------------------------ disk

  /** The output directory's JSON files after the writes: a later write to a path replaces an earlier one. */
  function Disk(writes: seq<Write>): map<string, Payload>
  {
    if writes == [] then map[]
    else Disk(writes[..|writes| - 1])[writes[|writes| - 1].path := writes[|writes| - 1].payload]
  }

  lemma {:induction false} DiskPaths(writes: seq<Write>)
    ensures Disk(writes).Keys == set w | w in writes :: w.path
    decreases |writes|
  {
    if writes != [] {
      var prefix := writes[..|writes| - 1];
      DiskPaths(prefix);
      assert writes == prefix + [writes[|writes| - 1]];
    }
  }

  /** A file holds the payload of the last write to its path. */
  lemma {:induction false} DiskLastWriteWins(writes: seq<Write>, i: nat)
    requires i < |writes|
    requires forall j :: i < j < |writes| ==> writes[j].path != writes[i].path
    ensures writes[i].path in Disk(writes) && Disk(writes)[writes[i].path] == writes[i].payload
    decreases |writes|
  {
    if i < |writes| - 1 {
      var prefix := writes[..|writes| - 1];
      assert prefix[i] == writes[i];
      DiskLastWriteWins(prefix, i);
    }
  }

  lemma HitsOfPair(c: Classifier, e1: Entry, e2: Entry)
    ensures Hits(c, [e1, e2]) == HitOf(c, e1) + HitOf(c, e2)
  {
    assert [e1, e2][1..] == [e2] && [e2][1..] == [];
    assert Hits(c, [e2]) == HitOf(c, e2) + [];
    assert HitOf(c, e2) + [] == HitOf(c, e2);
  }

  lemma RunOfOneFolder(fs: FileSystem, cfg: Config, be: Backends, folder: string)
    ensures Run(fs, cfg, be, [folder]) == FolderStep(fs, cfg, be, RunStart, folder)
  {
    assert [folder][..0] == [];
    assert RunAfter(fs, cfg, be, RunStart, []) == RunStart;
  }

  lemma DiskOfPair(w1: Write, w2: Write)
    requires w1.path == w2.path
    ensures Disk([w1, w2]) == map[w2.path := w2.payload]
  {
    assert [w1, w2][..1] == [w1] && [w1][..0] == [];
    assert Disk([w1]) == map[w1.path := w1.payload];
  }

  /** Per-file mode, two contributing entries with the same output name: two writes to that name, in order. */
  lemma SameNamePair(cfg: Config, c: Classifier, e1: Entry, e2: Entry, m1: Info, m2: Info)
    requires !cfg.combine
    requires c(e1) == Some(Extracted(m1)) && m1 != map[]
    requires c(e2) == Some(Extracted(m2)) && m2 != map[]
    requires PerFileName(e1.name) == PerFileName(e2.name)
    ensures FolderSpec(cfg, c, [e1, e2]).writes
         == [Write(Join(cfg.outputDir, PerFileName(e1.name)), Single(m1)), Write(Join(cfg.outputDir, PerFileName(e1.name)), Single(m2))]
  {
    assert HitOf(c, e1) == [(e1.name, m1)] && HitOf(c, e2) == [(e2.name, m2)];
    HitsOfPair(c, e1, e2);
    var w := Join(cfg.outputDir, PerFileName(e1.name));
    assert PerFileWrites(cfg.outputDir, [(e2.name, m2)]) == [Write(w, Single(m2))];
    assert PerFileWrites(cfg.outputDir, Hits(c, [e1, e2])) == [Write(w, Single(m1)), Write(w, Single(m2))];
    assert NoRaise(c, [e1, e2]);
    FolderWithoutRaise(cfg, c, [e1, e2]);
  }

  lemma DiskSnoc(writes: seq<Write>, w: Write)
    ensures Disk(writes + [w]) == Disk(writes)[w.path := w.payload]
  {
    assert (writes + [w])[..|writes|] == writes;
  }

  /** Where per-file mode writes an entry's result. */
  function OutputPath(outputDir: string, e: Entry): string
  {
    Join(outputDir, PerFileName(e.name))
  }

  /** The per-file writes of a listing are those of all but its last entry, then the last entry's own. */
  lemma PerFileWritesSnoc(outputDir: string, c: Classifier, entries: seq<Entry>)
    requires entries != []
    ensures PerFileWrites(outputDir, Hits(c, entries))
         == PerFileWrites(outputDir, Hits(c, entries[..|entries| - 1]))
            + match Hit(c, entries[|entries| - 1])
              case None => []
              case Some(info) => [Write(OutputPath(outputDir, entries[|entries| - 1]), Single(info))]
  {
    var prefix, e := entries[..|entries| - 1], entries[|entries| - 1];
    assert entries == prefix + [e];
    HitsSnoc(c, prefix, e);
    PerFileWritesAppend(outputDir, Hits(c, prefix), HitOf(c, e));
    match Hit(c, e)
    case None =>
      assert Hits(c, prefix) + [] == Hits(c, prefix);
    case Some(info) =>
      assert PerFileWrites(outputDir, HitOf(c, e)) == [Write(OutputPath(outputDir, e), Single(info))];
  }

  /** A write to another path leaves a file as it was. */
  lemma DiskKeepsOther(writes: seq<Write>, w: Write, path: string)
    requires path in Disk(writes) && w.path != path
    ensures path in Disk(writes + [w]) && Disk(writes + [w])[path] == Disk(writes)[path]
  {
    DiskSnoc(writes, w);
  }

  /**
   * Per-file mode, any listing: a contributing entry whose output path no later
   * contributing entry shares leaves its own result in that file, however many
   * earlier entries wrote there.
   */
  lemma {:induction false} LastHitPerPathWins(outputDir: string, c: Classifier, entries: seq<Entry>, j: nat)
    requires j < |entries| && Hit(c, entries[j]).Some?
    requires forall k :: j < k < |entries| && Hit(c, entries[k]).Some? ==>
      OutputPath(outputDir, entries[k]) != OutputPath(outputDir, entries[j])
    ensures OutputPath(outputDir, entries[j]) in Disk(PerFileWrites(outputDir, Hits(c, entries)))
    ensures Disk(PerFileWrites(outputDir, Hits(c, entries)))[OutputPath(outputDir, entries[j])]
         == Single(Hit(c, entries[j]).value)
    decreases |entries|
  {
    PerFileWritesSnoc(outputDir, c, entries);
    if j == |entries| - 1 {
      LastEntryWins(outputDir, c, entries);
    } else {
      var prefix := entries[..|entries| - 1];
      assert prefix[j] == entries[j];
      assert forall k :: j < k < |prefix| ==> prefix[k] == entries[k];
      LastHitPerPathWins(outputDir, c, prefix, j);
      EarlierEntryKept(outputDir, c, entries, j);
    }
  }

  /** The last entry's write, if any, is the last word on its path. */
  lemma LastEntryWins(outputDir: string, c: Classifier, entries: seq<Entry>)
    requires entries != [] && Hit(c, entries[|entries| - 1]).Some?
    ensures OutputPath(outputDir, entries[|entries| - 1]) in Disk(PerFileWrites(outputDir, Hits(c, entries)))
    ensures Disk(PerFileWrites(outputDir, Hits(c, entries)))[OutputPath(outputDir, entries[|entries| - 1])]
         == Single(Hit(c, entries[|entries| - 1]).value)
  {
    var e := entries[|entries| - 1];
    PerFileWritesSnoc(outputDir, c, entries);
    DiskSnoc(PerFileWrites(outputDir, Hits(c, entries[..|entries| - 1])), Write(OutputPath(outputDir, e), Single(Hit(c, e).value)));
  }

  /** The last entry does not disturb the file of an earlier one unless it writes the same path. */
  lemma EarlierEntryKept(outputDir: string, c: Classifier, entries: seq<Entry>, j: nat)
    requires j < |entries| - 1
    requires var e := entries[|entries| - 1];
      Hit(c, e).Some? ==> OutputPath(outputDir, e) != OutputPath(outputDir, entries[j])
    requires OutputPath(outputDir, entries[j]) in Disk(PerFileWrites(outputDir, Hits(c, entries[..|entries| - 1])))
    ensures OutputPath(outputDir, entries[j]) in Disk(PerFileWrites(outputDir, Hits(c, entries)))
    ensures Disk(PerFileWrites(outputDir, Hits(c, entries)))[OutputPath(outputDir, entries[j])]
         == Disk(PerFileWrites(outputDir, Hits(c, entries[..|entries| - 1])))[OutputPath(outputDir, entries[j])]
  {
    var e := entries[|entries| - 1];
    var ws := PerFileWrites(outputDir, Hits(c, entries[..|entries| - 1]));
    PerFileWritesSnoc(outputDir, c, entries);
    match Hit(c, e)
    case None =>
      assert ws + [] == ws;
    case Some(info) =>
      DiskKeepsOther(ws, Write(OutputPath(outputDir, e), Single(info)), OutputPath(outputDir, entries[j]));
  }

  /**
   * Per-file mode in a folder without an exception: the file of a contributing
   * entry holds its result unless a later contributing entry writes the same
   * path, so of `doc1.pdf` and `doc1.html` the one listed later wins.
   */
  lemma LaterSameNameWins(fs: FileSystem, cfg: Config, be: Backends, folder: string, j: nat)
    requires !cfg.combine && folder in fs && NoRaise(Classify(be, folder), fs[folder])
    requires j < |fs[folder]| && Hit(Classify(be, folder), fs[folder][j]).Some?
    requires forall k :: j < k < |fs[folder]| && Hit(Classify(be, folder), fs[folder][k]).Some? ==>
      OutputPath(cfg.outputDir, fs[folder][k]) != OutputPath(cfg.outputDir, fs[folder][j])
    ensures OutputPath(cfg.outputDir, fs[folder][j]) in Disk(FolderOutput(fs, cfg, be, folder))
    ensures Disk(FolderOutput(fs, cfg, be, folder))[OutputPath(cfg.outputDir, fs[folder][j])]
         == Single(Hit(Classify(be, folder), fs[folder][j]).value)
  {
    PerFileModeOutput(fs, cfg, be, folder);
    LastHitPerPathWins(cfg.outputDir, Classify(be, folder), fs[folder], j);
  }

  /** A run over one folder whose listing is such a pair. */
  lemma SameNameRun(fs: FileSystem, cfg: Config, be: Backends, folder: string, e1: Entry, e2: Entry, m1: Info, m2: Info)
    requires !cfg.combine && folder in fs && fs[folder] == [e1, e2]
    requires Classify(be, folder)(e1) == Some(Extracted(m1)) && m1 != map[]
    requires Classify(be, folder)(e2) == Some(Extracted(m2)) && m2 != map[]
    requires PerFileName(e1.name) == PerFileName(e2.name)
    ensures Run(fs, cfg, be, [folder]).writes
         == [Write(Join(cfg.outputDir, PerFileName(e1.name)), Single(m1)), Write(Join(cfg.outputDir, PerFileName(e1.name)), Single(m2))]
    ensures Disk(Run(fs, cfg, be, [folder]).writes) == map[Join(cfg.outputDir, PerFileName(e1.name)) := Single(m2)]
  {
    SameNamePair(cfg, Classify(be, folder), e1, e2, m1, m2);
    RunOfOneFolder(fs, cfg, be, folder);
    var w := Join(cfg.outputDir, PerFileName(e1.name));
    DiskOfPair(Write(w, Single(m1)), Write(w, Single(m2)));
  }

  /**
   * Per-file mode with `<stem>.pdf` listed before `<stem>.html` (say `doc1.pdf`
   * and `doc1.html`): both results are written to `<stem>.json`, and the HTML
   * result is what remains on disk.
   */
  lemma SameStemLaterWins(fs: FileSystem, cfg: Config, be: Backends, folder: string, stem: string, m1: Info, m2: Info)
    requires !cfg.combine
    requires |stem| > 0 && '/' !in stem && '.' !in stem
    requires folder in fs && fs[folder] == [Entry(stem + ".pdf", true), Entry(stem + ".html", true)]
    requires ProcessFile(Join(folder, stem + ".pdf"), be) == Extracted(m1) && m1 != map[]
    requires ProcessFile(Join(folder, stem + ".html"), be) == Extracted(m2) && m2 != map[]
    ensures Run(fs, cfg, be, [folder]).writes
         == [Write(Join(cfg.outputDir, stem + ".json"), Single(m1)), Write(Join(cfg.outputDir, stem + ".json"), Single(m2))]
    ensures Disk(Run(fs, cfg, be, [folder]).writes) == map[Join(cfg.outputDir, stem + ".json") := Single(m2)]
  {
    var e1, e2 := Entry(stem + ".pdf", true), Entry(stem + ".html", true);
    ConsideredStem(stem, ".pdf");
    ConsideredStem(stem, ".html");
    ClassifyTakes(be, folder, e1);
    ClassifyTakes(be, folder, e2);
    SameNameRun(fs, cfg, be, folder, e1, e2, m1, m2);
  }

  lemma ConsideredStem(stem: string, ext: string)
    requires |stem| > 0 && '/' !in stem && '.' !in stem
    requires ext in SupportedExtensions
    ensures Considered(Entry(stem + ext, true)) && PerFileName(stem + ext) == stem + ".json"
  {
    PerFileNameOfStem(stem, ext);
  }
}
