/**
 * The selectors of the `app_with_streaming.py` variant of the application:
 * every `.tmdl` member outside the translations folder is concatenated
 * into one semantic-model string, with no exception handler around the
 * archive; the file factory returns `None` for an unsupported type.
 */
module AppWithStreaming {
  import opened Wrappers
  import opened Text
  import opened Upload
  import ReportIqApp
  import AppSupported

  const TmdlExtension := ".tmdl"
  const CulturesDir := "/cultures/"

  /** The `elif` of the entry loop: a `.tmdl` member that is not a translation file. */
  predicate IsTmdlEntry(name: string) {
    EndsWith(name, TmdlExtension) && !Contains(name, CulturesDir)
  }

  /** `report.json` is never taken into the semantic model: no name ends in both. */
  lemma ReportNeverTmdl(name: string)
    ensures IsReportEntry(name) ==> !IsTmdlEntry(name)
  {
    if IsReportEntry(name) && |name| >= 5 {
      assert name[|name| - 1] == "report.json"[10];
      assert name[|name| - 5..][4] == name[|name| - 1];
    }
  }

  /** The concatenation of the texts, in order. */
  function Concat(texts: seq<string>): string {
    if texts == [] then "" else Concat(texts[..|texts| - 1]) + texts[|texts| - 1]
  }

  /** What `process` returns: the report text and the concatenated semantic model. */
  datatype FileContents = FileContents(report: string, semanticModel: string)

  /**
   * What `process` returns for an upload: `None` where it raises (the
   * upload is not a zip file, or a member it reads is not UTF-8), since
   * this variant has no exception handler.
   */
  function ProcessOf(file: UploadedFile): Option<FileContents> {
    if file.archive.None? then None
    else
      var x := ExtractAll(file.archive.value, IsTmdlEntry);
      if x.complete then Some(FileContents(x.report, Concat(x.blocks))) else None
  }

  /** `PowerBIProcessor`: holds the uploaded zip file. */
  datatype PowerBIProcessor = PowerBIProcessor(zipFile: UploadedFile) {

    /** `process`: the entry loop, growing the semantic-model string with `+=`. */
    method Process() returns (contents: Option<FileContents>)
      ensures contents == ProcessOf(zipFile)
    {
      if zipFile.archive.None? {
        return None;
      }
      var entries := zipFile.archive.value;
      var report, semanticModel := "", "";
      ghost var blocks: seq<string> := [];
      var k := 0;
      while k < |entries|
        invariant 0 <= k <= |entries|
        invariant ExtractAll(entries[..k], IsTmdlEntry) == Extracted(report, blocks, true)
        invariant semanticModel == Concat(blocks)
      {
        assert entries[..k + 1][..k] == entries[..k];
        var e := entries[k];
        if IsReportEntry(e.name) {
          match e.data {
            case Undecodable =>
              ExtractStops(entries, k, IsTmdlEntry);
              return None;
            case Decoded(text) =>
              report := text;
          }
        } else if IsTmdlEntry(e.name) {
          match e.data {
            case Undecodable =>
              ExtractStops(entries, k, IsTmdlEntry);
              return None;
            case Decoded(text) =>
              assert (blocks + [text])[..|blocks|] == blocks;
              semanticModel := semanticModel + text;
              blocks := blocks + [text];
          }
        }
        k := k + 1;
      }
      assert entries[..k] == entries;
      return Some(FileContents(report, semanticModel));
    }
  }

  /**
   * When every member can be read, the semantic model is the selected
   * `.tmdl` texts in archive order and the report is the last
   * `report.json`.
   */
  lemma ProcessReadable(file: UploadedFile)
    requires file.archive.Some? && AllDecodable(file.archive.value)
    ensures ProcessOf(file) == Some(FileContents(LastReport(file.archive.value),
                                                 Concat(SelectedTexts(file.archive.value, IsTmdlEntry))))
  {
    ExtractAllDecodable(file.archive.value, IsTmdlEntry);
  }

  /** `FileProcessorFactory.get_file_processor`: `None` for any other type (no error is raised). */
  function GetFileProcessor(fileType: string, zipFile: UploadedFile): (r: Option<PowerBIProcessor>)
    ensures r.Some? <==> fileType == PowerBI
    ensures r.Some? ==> r.value.zipFile == zipFile
  {
    if fileType == PowerBI then Some(PowerBIProcessor(zipFile)) else None
  }

  /** `PowerBIContext`: the report text, the semantic-model string and the user context. */
  datatype PowerBIContext = PowerBIContext(report: string, semanticModel: string, userContext: string) {

    /** `set_context`: the semantic-model string enters the prompt as it is. */
    function SetContext(): (prompts: (string, string))
      ensures StartsWith(prompts.0, AppSupported.BasePrompt(report, semanticModel))
      ensures |userContext| > 0 <==> |prompts.0| > |AppSupported.BasePrompt(report, semanticModel)|
      ensures |userContext| > 0 ==> EndsWith(prompts.0, ReportIqApp.ContextParagraph(userContext))
      ensures |userContext| > 0 ==> |prompts.0| == |AppSupported.BasePrompt(report, semanticModel)| + |ReportIqApp.ContextParagraph(userContext)|
      ensures prompts.1 == AppSupported.UserPrompt
    {
      var base := AppSupported.BasePrompt(report, semanticModel);
      var extra := if |userContext| > 0 then ReportIqApp.ContextParagraph(userContext) else [];
      Appended(base, extra);
      (base + extra, AppSupported.UserPrompt)
    }
  }

  /** `SetContextFactory.get_context`: `Err` is the `ValueError` it raises. */
  function GetContext(fileType: string, contents: FileContents, userContext: string): (r: Result<PowerBIContext, string>)
    ensures r.Ok? <==> fileType == PowerBI
    ensures r.Ok? ==> r.value == PowerBIContext(contents.report, contents.semanticModel, userContext)
    ensures r.Err? ==> r.error == ReportIqApp.FileTypeError
  {
    if fileType == PowerBI then Ok(PowerBIContext(contents.report, contents.semanticModel, userContext)) else Err(ReportIqApp.FileTypeError)
  }
}
