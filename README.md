# RFP document processor: a Dafny model of its batch logic

The processor walks a list of input folders. For each folder it:

- takes every regular file whose name ends, case-insensitively, in `.html`, `.htm` or `.pdf`;
- has `process_file` turn the file into text and then, through a language-model call, into a JSON object of string fields;
- writes the non-empty results to an output directory, either as one `<stem>.json` per document or as one `<folder>_processed.json` array per folder.

This project models that logic and proves what it guarantees. Four parts are covered:

- the extension filter;
- the case-sensitive format dispatch of `process_file`;
- the naming of the output files;
- the nested loop of `process_folders`, with its aggregation policy.

Modules:

- `PathOps` (`path_ops.dfy`): the POSIX behaviour of what the script uses. That is `str.endswith`, `str.lower`, `str.rfind`, `os.path.basename`, `os.path.join` and `os.path.splitext`, including the rule that leading dots of a name do not start an extension.
- `Extraction` (`extraction.dfy`):
  - `SUPPORTED_EXTENSIONS` and the filter;
  - the dispatch;
  - `extract_information` modelled as "the decoded object, or the empty mapping";
  - `process_file`.

  The two text extractors and the model endpoint are the two functions of a `Backends` value.
- `OutputNames` (`output_names.dfy`): the per-file and combined output names, with the facts about them that matter.
- `FolderProcessor` (`folder_processor.dfy`): `process_folders` as two methods with loops, proved equal to reference functions that fold the loops' steps.
  - The file system is a map from each directory to its listing, in listing order. A path that is not a key is not a directory.
  - The effect of a run is the ordered sequence of JSON writes it issues, plus a flag saying that an extractor's exception ended the run.
  - The inner loop sees an entry only through a classifier: `None` when the entry is skipped, otherwise what `process_file` returns. `Classify` is the classifier of a real folder.
- `FolderProperties` (`folder_properties.dfy`): the guarantees, stated against independent reference definitions. These are the hits of a folder in listing order, the per-file writes they yield, the outputs of each folder on its own, and the resulting directory contents.

Two behaviours of the code are worth knowing before reading the lemmas:

- An upper-case `.PDF` file is filtered in and then dropped. The filter lower-cases the name before testing its suffix (main.py:185), but the dispatch in `process_file` tests the suffix case-sensitively (main.py:150-156). So such a file passes the filter and `process_file` returns `None` for it (`UpperCasePdfIsUnsupported`, `UpperCasePdfDropped`).
- An exception from a text extractor ends the whole run. Nothing around `parse_html`, `parse_pdf` (main.py:151-153) or the call to `process_file` (main.py:188) catches it, so it leaves `process_folders`. Files already written stay on disk (`FolderStopsAtRaise`, `RaiseEndsRun`).

## Model

| member | source | states |
|---|---|---|
| PathOps.EndsWith | main.py:150-185 | `str.endswith` with one suffix, used by the dispatch (main.py:150, 152) and the filter (main.py:185); no contract of its own, characterised by `SupportedBy`, `DispatchedIsSupported` and `LowerKeepsSuffix` |
| PathOps.Lower | main.py:185 | `str.lower` on ASCII letters, other characters kept; no contract of its own, characterised by `LowerKeepsSuffix` and `LowerAppend` |
| PathOps.Basename | main.py:178 | `os.path.basename`: everything after the last '/'; no contract of its own, characterised by `BasenameShape` |
| PathOps.Join | main.py:182 | `os.path.join` with two parts; no contract of its own, characterised by `JoinShape` |
| PathOps.Splitext | main.py:193 | `os.path.splitext`; no contract of its own, characterised by `SplitextShape` and `SplitextAtLastDot` |
| PathOps.SplitextAtLastDot | main.py:193 | a '/'-free name that does not start with '.' splits at its last '.' |
| PathOps.RFind | main.py:178 | the index of the last occurrence of the character, or -1; no later position holds it |
| PathOps.BasenameShape | main.py:178 | the basename is a suffix of the path without '/', preceded by '/' when shorter than the path |
| PathOps.JoinShape | main.py:182 | an absolute name replaces the folder; otherwise the joined path is the folder, then one '/' exactly when the folder is non-empty and does not end in '/', then the name |
| PathOps.SplitextShape | main.py:193 | root and extension concatenate to the name; a non-empty extension is one '.' with no other '.' or '/' after a non-dot character of the last component; an empty one means every '.' of that component has only dots before it |
| PathOps.LowerKeepsSuffix | main.py:185 | a suffix written in lower case still ends the lower-cased name |
| Extraction.SupportedExtensions | main.py:18 | the three extensions `.html`, `.htm`, `.pdf`; a constant, characterised by `SupportedExtensionShape` and `SupportedBy` |
| Extraction.EndsWithAny | main.py:185 | `any(s.endswith(ext) for ext in exts)`; no contract of its own, characterised by `SupportedBy` and `TextFileIsNotSupported` |
| Extraction.IsSupported | main.py:185 | the filter `any(filename.lower().endswith(ext) ...)`; no contract of its own, characterised by `SupportedBy`, `TextFileIsNotSupported` and `UpperCasePdfIsSupported` |
| Extraction.Dispatch | main.py:150-156 | the branch `process_file` takes; no contract of its own, characterised by `DispatchedIsSupported`, `CapitalEndingIsNotDispatched` and `DispatchOnJoinedPath` |
| Extraction.SupportedBy | main.py:18 | a name ending in one of `.html`, `.htm`, `.pdf` passes the filter |
| Extraction.TextFileIsNotSupported | main.py:185 | no name ending in `.txt` passes the filter |
| Extraction.UpperCasePdfIsSupported | main.py:185 | a name ending in `.PDF` passes the filter |
| Extraction.DispatchedIsSupported | main.py:150-156 | every path the dispatch sends to an extractor also passes the filter |
| Extraction.CapitalEndingIsNotDispatched | main.py:150-156 | a path ending in a capital letter goes to no extractor |
| Extraction.DispatchOnJoinedPath | main.py:182-188 | for a name that passes the filter, dispatching on the joined path gives the same branch as dispatching on the bare name |
| Extraction.ExtractInformation | main.py:117-137 | the decoded object when the reply is a JSON object; the empty mapping when decoding or the call fails; never an exception |
| Extraction.ProcessFile | main.py:139-159 | `None` exactly when the dispatch rejects the path; an exception exactly when the chosen extractor raises; otherwise exactly what `extract_information` returns for the extracted text |
| Extraction.UpperCasePdfIsUnsupported | main.py:150-156 | a `.PDF` name passes the filter, yet `process_file` returns `None` for it in any folder |
| OutputNames.PerFileName | main.py:193 | the per-file output name; no contract of its own, characterised by `PerFileNameOfStem`, `DotOnlyNameKeepsWholeName` and `PerFileNameCanMatchCombinedName` |
| OutputNames.CombinedName | main.py:178-200 | the combined output name; no contract of its own, characterised by `CombinedNameOfPlainFolder` |
| OutputNames.SupportedExtensionShape | main.py:18 | each supported extension is one '.' followed by neither '.' nor '/' |
| OutputNames.StemAndExtension | main.py:193 | a dot-free stem plus such an extension splits back into that stem and extension |
| OutputNames.PerFileNameOfStem | main.py:193 | a dot-free stem with any supported extension passes the filter and is written as `<stem>.json` |
| OutputNames.CombinedNameOfPlainFolder | main.py:178-200 | a folder path without '/' gives the combined name `<folder>_processed.json` |
| OutputNames.PerFileNameCanMatchCombinedName | main.py:193-200 | per-file mode writes `<stem>_processed.pdf` to `<stem>_processed.json`, the name combine mode uses for folder `<stem>` |
| OutputNames.DotOnlyNameKeepsWholeName | main.py:185-193 | a file named only `.pdf` passes the filter and is written as `.pdf.json` |
| FolderProcessor.Considered | main.py:183-186 | an entry passes both `continue` skips: it is a regular file and its name passes the filter; no contract of its own, characterised by `ClassifyMeaning` |
| FolderProcessor.Classify | main.py:182-188 | what the inner loop learns about an entry; no contract of its own, characterised by `ClassifyMeaning` |
| FolderProcessor.EntryStep | main.py:183-197 | one iteration of the inner loop; no contract of its own, characterised by `EntryStepByHit` and `EntryStepAborts`, and the specification `ScanFolder` is proved against |
| FolderProcessor.FolderWrites | main.py:199-203 | a folder's writes once its inner loop is over; no contract of its own, characterised by `CombineModeOutput` and `PerFileModeOutput` |
| FolderProcessor.FolderStep | main.py:173-204 | one iteration of the outer loop; no contract of its own, characterised by `RunWithoutRaise`, `NonDirectorySkipped` and `RaiseEndsRun`, and the specification `ProcessFolders` is proved against |
| FolderProcessor.ScanFolder | main.py:179-198 | the inner loop issues exactly the per-file writes and the `combined_data` of the reference fold over the listing, and stops at the first extractor exception |
| FolderProcessor.ProcessFolders | main.py:161-204 | the whole run issues exactly the writes of the reference fold over the folders, and reports whether an exception ended it |
| FolderProperties.EntryStepByHit | main.py:188-197 | without an exception, one step adds the entry's hit to `combined_data` in combine mode, or one `<stem>.json` write otherwise, and nothing when it has none |
| FolderProperties.EntryStepAborts | main.py:188 | one step ends the folder exactly when the entry's extractor raises |
| FolderProperties.ClassifyMeaning | main.py:183-189 | an entry raises exactly when it passes both skips and its extractor raises; it contributes exactly when `process_file` returns a non-empty mapping for it |
| FolderProperties.FolderWithoutRaise | main.py:181-198 | without an exception a folder yields exactly its hits in listing order: as `combined_data` in combine mode, as one per-file write each otherwise, never both |
| FolderProperties.FolderAbortsIff | main.py:181-188 | a folder's loop is ended by an exception if and only if some entry's extractor raises |
| FolderProperties.FolderStopsAtRaise | main.py:181-188 | at the first raising entry the folder state is what the entries before it produced; nothing after it is looked at |
| FolderProperties.HitsCount | main.py:188-191 | the number of hits equals the number of listing positions with a non-empty result |
| FolderProperties.CombinedMatchesHits | main.py:179-191 | combine mode: `combined_data` is the non-empty results in listing order, one per contributing entry |
| FolderProperties.InertEntryHasNoEffect | main.py:183-189 | an entry that neither contributes nor raises can be removed from the listing without changing anything |
| FolderProperties.TextFileIgnored | main.py:183-186 | a `.txt` file produces no write and no error |
| FolderProperties.UpperCasePdfDropped | main.py:150-156 | a regular `.PDF` file passes the filter and is still dropped as if absent |
| FolderProperties.NonRegularEntryIgnored | main.py:183-184 | an entry that is not a regular file is skipped whatever its name |
| FolderProperties.FailedModelCallDropsFile | main.py:130-135 | a failed model call or an undecodable reply drops that file only, and the batch goes on |
| FolderProperties.CombineModeOutput | main.py:199-203 | combine mode: a folder writes one `<basename>_processed.json` holding its hits in order, or nothing when it has none |
| FolderProperties.PerFileModeOutput | main.py:189-196 | per-file mode: a folder writes one `<stem>.json` per hit, in listing order |
| FolderProperties.RunWithoutRaise | main.py:173-204 | without an exception a run writes each folder's own output in folder order; `combined_data` is reset per folder |
| FolderProperties.NonDirectorySkipped | main.py:173-176 | a path that is not a directory writes nothing and changes nothing for the other folders |
| FolderProperties.RaiseEndsRun | main.py:173-204 | an exception keeps the earlier folders' writes and the failing folder's earlier per-file writes, drops its combined file, and skips every later folder |
| FolderProperties.WritesFollowMode | main.py:189-203 | combine mode issues only combined writes, each named after an input folder, at most one per folder; per-file mode issues only single-document writes, each named after a filtered-in entry |
| FolderProperties.Disk | main.py:195-203 | the files the writes leave in the output directory, each opened in 'w' mode; no contract of its own, characterised by `DiskPaths` and `DiskLastWriteWins` |
| FolderProperties.DiskPaths | main.py:195-203 | the files the run writes are exactly the paths of its writes |
| FolderProperties.DiskLastWriteWins | main.py:195-203 | a file holds the payload of the last write to its path |
| FolderProperties.LastHitPerPathWins | main.py:189-196 | per-file mode, any listing: the file of a contributing entry holds its result unless a later contributing entry writes the same path |
| FolderProperties.LaterSameNameWins | main.py:189-196 | per-file mode, in a folder without an exception: the same, for the folder's own output |
| FolderProperties.SameNamePair | main.py:189-196 | per-file mode: two contributing entries with the same output name give two writes to that name, in listing order |
| FolderProperties.SameStemLaterWins | main.py:189-196 | per-file mode with `<stem>.pdf` listed before `<stem>.html`: both are written to `<stem>.json`, and the HTML result remains |

## Left out

- The text extractors `parse_html` and `parse_pdf` are not modelled. They wrap HTML and PDF libraries whose behaviour is not visible here, so they are the `parse` function of `Backends`: text, or an exception.
- The prompt text and the chat-completion request of `extract_information` are not modelled. They are a network call with non-deterministic output, so they are the `complete` function of `Backends`.
- Backends: each is one fixed function for the whole run, so the model gives one fixed reply per text and one fixed parse outcome per path. The source makes an independent request for every file (main.py:118), and two files with the same text, or a folder listed twice, can get different replies there.
- A reply that decodes to JSON other than an object of strings (a list, a number, a string, `true`, `false`, `null`, nested values) is not modelled. In the source such a value is kept when it is truthy and dropped when it is falsy (main.py:189).
- JSON serialisation is not modelled: encoding, indentation and `ensure_ascii`. A write is its path and its payload.
- The directory effects of the file system are inputs, not verified behaviour:
  - `os.makedirs` of the output directory;
  - the order in which `os.listdir` returns names;
  - what `os.path.isdir` and `os.path.isfile` report.

  An exception from listing a folder or writing a file is not modelled. `Disk` describes only the files the run writes: it starts from an empty directory, while files already in the output directory stay there (main.py:170-171).
- Loading the API key at import time, the fatal check for a missing key, and the command-line entry point with its fixed folder list are not modelled. They are configuration.
- `print` diagnostics are not modelled. The `print` at main.py:149 can itself raise: on Linux `os.listdir` returns an undecodable name with lone surrogates, and printing it to a stdout with strict UTF-8 encoding raises `UnicodeEncodeError`, which ends the run before the dispatch. A Dafny `string` cannot hold such a name, so the model has no such entry.
- `str.lower` is modelled for ASCII letters only; other characters are kept. This does not change the filter: the only non-ASCII characters whose lower-case form contains an ASCII character are U+0130 (to `i` and U+0307) and U+212A (to `k`), and neither gives any character of `.html`, `.htm` or `.pdf`, so `IsSupported` agrees with main.py:185 on every name.
- WritesFollowMode: separates the modes by payload kind and by where a write's name comes from, not by the `_processed.json` suffix. A per-file name can end in `_processed.json` too (`PerFileNameCanMatchCombinedName`).
