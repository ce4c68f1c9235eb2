/**
 * The names of the JSON files `process_folders` writes into the output
 * directory, and what those names are for a few inputs that matter.
 */
module OutputNames {
  import opened PathOps
  import opened Extraction

  /** `os.path.splitext(filename)[0] + '.json'` */
  function PerFileName(filename: string): string
  {
    Splitext(filename).0 + ".json"
  }

  /** `f"{folder_name}_processed.json"` with `folder_name = os.path.basename(folder)` */
  function CombinedName(folder: string): string
  {
    Basename(folder) + "_processed.json"
  }

  /** Every supported extension is one '.' followed by letters only. */
  lemma SupportedExtensionShape(ext: string)
    requires ext in SupportedExtensions
    ensures |ext| > 1 && ext[0] == '.' && '/' !in ext && '.' !in ext[1..]
  {
    if ext == ".html" {
      assert ext[1..] == "html";
    } else if ext == ".htm" {
      assert ext[1..] == "htm";
    } else {
      assert ext[1..] == "pdf";
    }
  }

  /**
   * A name made of a stem without '.' or '/' and an extension that is one '.'
   * and no other '.' or '/' splits into exactly that stem and extension.
   */
  lemma StemAndExtension(stem: string, ext: string)
    requires |stem| > 0 && '/' !in stem && '.' !in stem
    requires |ext| > 0 && ext[0] == '.' && '/' !in ext && '.' !in ext[1..]
    ensures Splitext(stem + ext) == (stem, ext)
  {
    var p := stem + ext;
    assert forall i :: 0 <= i < |p| ==> p[i] != '/' by {
      forall i | 0 <= i < |p| ensures p[i] != '/' {
        if i >= |stem| {
          assert p[i] == ext[i - |stem|];
        }
      }
    }
    forall k | |stem| < k < |p| ensures p[k] != '.' {
      assert p[k] == ext[1..][k - |stem| - 1];
    }
    SplitextAtLastDot(p, |stem|);
    assert p[..|stem|] == stem && p[|stem|..] == ext;
  }

  /**
   * A plain stem keeps its name whichever supported extension it carries, so
   * `doc1.pdf` and `doc1.html` in one folder both write `doc1.json`.
   */
  lemma PerFileNameOfStem(stem: string, ext: string)
    requires |stem| > 0 && '/' !in stem && '.' !in stem
    requires ext in SupportedExtensions
    ensures IsSupported(stem + ext)
    ensures PerFileName(stem + ext) == stem + ".json"
  {
    SupportedExtensionShape(ext);
    StemAndExtension(stem, ext);
    SupportedBy(stem + ext, ext);
  }

  /** A folder path without '/' is its own basename. */
  lemma CombinedNameOfPlainFolder(folder: string)
    requires '/' !in folder
    ensures CombinedName(folder) == folder + "_processed.json"
  {
    RFindAbsent(folder, '/');
  }

  /**
   * The two naming rules can meet: in per-file mode an input named
   * `<stem>_processed.pdf`, which the filter accepts, writes
   * `<stem>_processed.json`, the name combine mode uses for folder `<stem>`.
   */
  lemma PerFileNameCanMatchCombinedName(stem: string)
    requires |stem| > 0 && '/' !in stem && '.' !in stem
    ensures IsSupported(stem + "_processed.pdf")
    ensures PerFileName(stem + "_processed.pdf") == CombinedName(stem)
  {
    var longer := stem + "_processed";
    assert forall i :: 0 <= i < |longer| ==> longer[i] != '/' && longer[i] != '.' by {
      forall i | 0 <= i < |longer| ensures longer[i] != '/' && longer[i] != '.' {
        if i >= |stem| {
          assert longer[i] == "_processed"[i - |stem|];
        }
      }
    }
    assert longer + ".pdf" == stem + "_processed.pdf";
    PerFileNameOfStem(longer, ".pdf");
    assert longer + ".json" == stem + "_processed.json";
    CombinedNameOfPlainFolder(stem);
  }

  /**
   * A file named only `.pdf` passes the filter but has no extension to strip,
   * so its output is `.pdf.json`.
   */
  lemma DotOnlyNameKeepsWholeName()
    ensures IsSupported(".pdf") && PerFileName(".pdf") == ".pdf.json"
  {
    assert Splitext(".pdf") == (".pdf", "") by {
      RFindAbsent(".pdf", '/');
      RFindAt(".pdf", '.', 0);
    }
    assert PerFileName(".pdf") == ".pdf.json";
    SupportedBy(".pdf", ".pdf");
  }
}
