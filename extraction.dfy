/**
 * Selecting and converting one document: the case-insensitive extension
 * filter, the case-sensitive format dispatch of `process_file`, and the
 * error-swallowing wrapper around the language-model call.
 *
 * The two text extractors and the model endpoint are not modelled; they are
 * the two functions of a `Backends` value, which every operation takes as a
 * parameter.
 */
module Extraction {
  import opened Options
  import opened PathOps

  /** `SUPPORTED_EXTENSIONS` */
  const SupportedExtensions: seq<string> := [".html", ".htm", ".pdf"]

  /** The folder filter: the lower-cased name ends with a supported extension. */
  predicate IsSupported(filename: string)
  {
    EndsWithAny(Lower(filename), SupportedExtensions)
  }

  /** `any(s.endswith(ext) for ext in exts)` */
  predicate EndsWithAny(s: string, exts: seq<string>)
  {
    exists ext :: ext in exts && EndsWith(s, ext)
  }

  /** A name ending in a supported extension, written in lower case, passes. */
  lemma SupportedBy(filename: string, ext: string)
    requires ext in SupportedExtensions
    requires EndsWith(filename, ext)
    ensures IsSupported(filename)
  {
    assert Lower(ext) == ext by {
      assert Lower(".html") == ".html" && Lower(".htm") == ".htm" && Lower(".pdf") == ".pdf";
    }
    LowerKeepsSuffix(filename, ext);
  }

  datatype Format = Html | Pdf

  /**
   * The branch `process_file` takes, decided by a case-sensitive suffix test on
   * the whole path. Whatever it dispatches, the filter accepts.
   */
  function Dispatch(path: string): Option<Format>
  {
    if EndsWith(path, ".html") || EndsWith(path, ".htm") then Some(Html)
    else if EndsWith(path, ".pdf") then Some(Pdf)
    else None
  }

  /** The dispatch is stricter than the filter: whatever it dispatches, the filter accepts. */
  lemma DispatchedIsSupported(path: string)
    ensures Dispatch(path).Some? ==> IsSupported(path)
  {
    if EndsWith(path, ".html") {
      SupportedBy(path, ".html");
    } else if EndsWith(path, ".htm") {
      SupportedBy(path, ".htm");
    } else if EndsWith(path, ".pdf") {
      SupportedBy(path, ".pdf");
    }
  }

  /** A document's fields as the model returned them. */
  type Info = map<string, string>

  /** What a text extractor does with a file: its text, or an exception. */
  datatype ParseOutcome = Text(text: string) | ParseFailed

  /**
   * What one chat-completion request yields: a reply that decodes to a JSON
   * object, a reply that does not decode, or a failure of the call itself.
   */
  datatype ModelReply = JsonObject(fields: Info) | NotJson | CallFailed

  /** `parse_html`/`parse_pdf`, and the prompt plus completion request. */
  datatype Backends = Backends(
    parse: (Format, string) -> ParseOutcome,
    complete: string -> ModelReply)

  /**
   * `extract_information(text)`: the decoded object, or the empty mapping when
   * the reply is not JSON or the call failed. It never raises.
   */
  function ExtractInformation(complete: string -> ModelReply, text: string): (r: Info)
    ensures complete(text).JsonObject? ==> r == complete(text).fields
    ensures !complete(text).JsonObject? ==> r == map[]
  {
    match complete(text)
    case JsonObject(fields) => fields
    case NotJson => map[]
    case CallFailed => map[]
  }

  /**
   * What `process_file(path)` does: returns `None` for a name it does not
   * dispatch, lets an extractor's exception escape, or returns the extracted
   * fields.
   */
  datatype FileResult = Unsupported | Raised | Extracted(info: Info)

  function ProcessFile(path: string, be: Backends): (r: FileResult)
    ensures r.Unsupported? <==> Dispatch(path).None?
    ensures r.Raised? <==> Dispatch(path).Some? && be.parse(Dispatch(path).value, path).ParseFailed?
    ensures Dispatch(path).Some? && be.parse(Dispatch(path).value, path).Text? ==>
      r == Extracted(ExtractInformation(be.complete, be.parse(Dispatch(path).value, path).text))
  {
    match Dispatch(path)
    case None => Unsupported
    case Some(format) =>
      match be.parse(format, path)
      case ParseFailed => Raised
      case Text(text) => Extracted(ExtractInformation(be.complete, text))
  }

  /** The lower-cased name of `<stem>.PDF` ends in ".pdf", so the filter accepts it. */
  lemma UpperCasePdfIsSupported(stem: string)
    ensures IsSupported(stem + ".PDF")
  {
    var name := stem + ".PDF";
    LowerAppend(stem, ".PDF");
    assert Lower(".PDF") == ".pdf";
    assert EndsWith(Lower(name), ".pdf");
    assert ".pdf" in SupportedExtensions;
  }

  /** A path whose last character is a capital letter is dispatched to no extractor. */
  lemma CapitalEndingIsNotDispatched(path: string)
    requires |path| > 0 && 'A' <= path[|path| - 1] <= 'Z'
    ensures Dispatch(path) == None
  {
  }

  /**
   * The filter and the dispatch disagree on case: a name ending in ".PDF"
   * passes the folder filter, and `process_file` then returns `None`.
   */
  lemma UpperCasePdfIsUnsupported(folder: string, stem: string, be: Backends)
    ensures IsSupported(stem + ".PDF")
    ensures ProcessFile(Join(folder, stem + ".PDF"), be) == Unsupported
  {
    UpperCasePdfIsSupported(stem);
    var name := stem + ".PDF";
    var path := Join(folder, name);
    JoinShape(folder, name);
    assert path[|path| - 1] == name[|name| - 1] == 'F';
    CapitalEndingIsNotDispatched(path);
  }

  /** A ".txt" name never passes the filter. */
  lemma TextFileIsNotSupported(stem: string)
    ensures !IsSupported(stem + ".txt")
  {
    var low := Lower(stem + ".txt");
    LowerAppend(stem, ".txt");
    assert Lower(".txt") == ".txt";
    assert low[|low| - 1] == 't';
  }

  /**
   * For a name the filter accepts, dispatching on the joined path is the same
   * as dispatching on the bare name: the folder part cannot change the branch.
   */
  lemma DispatchOnJoinedPath(folder: string, filename: string)
    requires IsSupported(filename)
    ensures Dispatch(Join(folder, filename)) == Dispatch(filename)
  {
    var ext :| ext in SupportedExtensions && EndsWith(Lower(filename), ext);
    JoinShape(folder, filename);
    if 5 <= |filename| {
      DispatchOnLongSuffix(Join(folder, filename), filename);
    } else {
      ShortSupportedName(filename, ext);
      DispatchOnShortSuffix(Join(folder, filename), filename);
    }
  }

  /** Two paths with a common ending of at least five characters are dispatched alike. */
  lemma DispatchOnLongSuffix(path: string, filename: string)
    requires EndsWith(path, filename) && 5 <= |filename|
    ensures Dispatch(path) == Dispatch(filename)
  {
    EndsWithTrans(path, filename, ".html");
    EndsWithTrans(path, filename, ".htm");
    EndsWithTrans(path, filename, ".pdf");
  }

  /** The same for a shorter common ending that is not ".html" and does not end in 'l'. */
  lemma DispatchOnShortSuffix(path: string, filename: string)
    requires EndsWith(path, filename) && 4 <= |filename|
    requires filename[|filename| - 1] != 'l' && !EndsWith(filename, ".html")
    ensures Dispatch(path) == Dispatch(filename)
  {
    EndsWithTrans(path, filename, ".htm");
    EndsWithTrans(path, filename, ".pdf");
    assert path[|path| - 1] == filename[|filename| - 1];
  }

  lemma ShortSupportedName(filename: string, ext: string)
    requires ext in SupportedExtensions && EndsWith(Lower(filename), ext)
    requires |filename| < 5
    ensures 4 <= |filename|
    ensures filename[|filename| - 1] != 'l'
    ensures !EndsWith(filename, ".html")
  {
    var last := filename[|filename| - 1];
    assert Lower(filename)[|filename| - 1] == LowerChar(last);
  }
}
