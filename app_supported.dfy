/**
 * The selectors of the `app_supported.py` variant of the application: its
 * entry filter (which keeps date-table templates), its processor (which
 * names the diagram file instead of drawing it), the factories, the prompt
 * with its optional user-context paragraph, and the upload instructions.
 */
module AppSupported {
  import opened Wrappers
  import opened Text
  import opened Upload
  import ReportIqApp

  /** The `elif` of the entry loop: like `app.py`'s, but `/DateTableTemplate` entries are kept. */
  predicate IsModelEntry(name: string) {
    && !Contains(name, ReportIqApp.LocalDateDir)
    && (EndsWith(name, ReportIqApp.RelationshipsFile) || Contains(name, ReportIqApp.TablesDir))
  }

  /** The two filters differ exactly on the date-table templates. */
  lemma FilterDifference(name: string)
    ensures ReportIqApp.IsModelEntry(name) <==> IsModelEntry(name) && !Contains(name, ReportIqApp.DateTemplateDir)
    ensures IsModelEntry(name) && !ReportIqApp.IsModelEntry(name) ==> Contains(name, ReportIqApp.DateTemplateDir)
  {
  }

  /** For an archive without date-table templates, the two applications read the same report and blocks. */
  lemma SameBlocksWithoutTemplates(entries: seq<Entry>)
    requires forall i :: 0 <= i < |entries| ==> !Contains(entries[i].name, ReportIqApp.DateTemplateDir)
    ensures ExtractAll(entries, IsModelEntry) == ExtractAll(entries, ReportIqApp.IsModelEntry)
  {
    forall i | 0 <= i < |entries|
      ensures IsModelEntry(entries[i].name) == ReportIqApp.IsModelEntry(entries[i].name)
    {
      FilterDifference(entries[i].name);
    }
    ExtractAgree(entries, IsModelEntry, ReportIqApp.IsModelEntry);
  }

  /** What `process` returns: the report text, the blocks and the name of the diagram file. */
  datatype FileContents = FileContents(report: string, semanticModel: seq<string>, erFilename: string)

  const DiagramSuffix := "_ER_diagram"

  /** What `process` returns for an upload. */
  function ProcessOf(file: UploadedFile): FileContents {
    var x := if file.archive.Some? then ExtractAll(file.archive.value, IsModelEntry) else Nothing;
    FileContents(x.report, x.blocks, file.name + DiagramSuffix)
  }

  /** `PowerBIProcessor`: holds the uploaded zip file. */
  datatype PowerBIProcessor = PowerBIProcessor(zipFile: UploadedFile) {

    /** `process`: the entry loop inside its `try`, then the diagram file name. */
    method Process() returns (contents: FileContents)
      ensures contents == ProcessOf(zipFile)
    {
      var report, blocks := "", [];
      if zipFile.archive.Some? {
        var complete;
        report, blocks, complete := ReadArchive(zipFile.archive.value, IsModelEntry);
      }
      var erFilename := zipFile.name + DiagramSuffix;
      return FileContents(report, blocks, erFilename);
    }
  }

  /** The diagram file is named after the upload, so different uploads get different names. */
  lemma DiagramNameInjective(f: UploadedFile, g: UploadedFile)
    ensures ProcessOf(f).erFilename == ProcessOf(g).erFilename ==> f.name == g.name
  {
    if ProcessOf(f).erFilename == ProcessOf(g).erFilename {
      assert f.name == (f.name + DiagramSuffix)[..|f.name|];
      assert g.name == (g.name + DiagramSuffix)[..|g.name|];
    }
  }

  /** `FileProcessorFactory.get_file_processor`: `Err` is the `ValueError` it raises. */
  function GetFileProcessor(fileType: string, zipFile: UploadedFile): (r: Result<PowerBIProcessor, string>)
    ensures r.Ok? <==> fileType == PowerBI
    ensures r.Ok? ==> r.value.zipFile == zipFile
    ensures r.Err? ==> r.error == ReportIqApp.FileFormatError
  {
    if fileType == PowerBI then Ok(PowerBIProcessor(zipFile)) else Err(ReportIqApp.FileFormatError)
  }

  /** `PowerBIContext`: the report text, the blocks (rendered as Python renders a list) and the user context. */
  datatype PowerBIContext = PowerBIContext(report: string, semanticModel: seq<string>, userContext: string) {

    /** `set_context`: the system prompt, with the user-context paragraph only for a non-empty context, and the user prompt. */
    function SetContext(render: seq<string> -> string): (prompts: (string, string))
      ensures StartsWith(prompts.0, BasePrompt(report, render(semanticModel)))
      ensures |userContext| > 0 <==> |prompts.0| > |BasePrompt(report, render(semanticModel))|
      ensures |userContext| > 0 ==> EndsWith(prompts.0, ReportIqApp.ContextParagraph(userContext))
      ensures |userContext| > 0 ==> |prompts.0| == |BasePrompt(report, render(semanticModel))| + |ReportIqApp.ContextParagraph(userContext)|
      ensures prompts.1 == UserPrompt
    {
      var base := BasePrompt(report, render(semanticModel));
      var extra := if |userContext| > 0 then ReportIqApp.ContextParagraph(userContext) else [];
      Appended(base, extra);
      (base + extra, UserPrompt)
    }
  }

  /** `SetContextFactory.get_context`: `Err` is the `ValueError` it raises. */
  function GetContext(fileType: string, contents: FileContents, userContext: string): (r: Result<PowerBIContext, string>)
    ensures r.Ok? <==> fileType == PowerBI
    ensures r.Ok? ==> r.value == PowerBIContext(contents.report, contents.semanticModel, userContext)
    ensures r.Err? ==> r.error == ReportIqApp.FileTypeError
  {
    if fileType == PowerBI then Ok(PowerBIContext(contents.report, contents.semanticModel, userContext)) else Err(ReportIqApp.FileTypeError)
  }

  // The lines of this variant's prompts that differ from `app.py`'s, each after an `Indent`.
  const DependencyLine := "Generate table dependencies by looking at the tables, their columns and their relationships."
  const FormatLine := "All of the corresponding files are in .tmdl format. Data attached : "
  const ShortLine := "Make everything comprehensive, clear, avoid redundancy and finish everything under 1000 tokens."
  const TaskLine := "Generate documentation based on this power bi report.json file."
  const SectionsLine := "It should have overview, key contacts, data flow, data explorer, dependencies(table dependencies as would be given in an er diagram) and data dictionary."
  const DetailLine := "Make it comprehensive but finish it off and conclude it by 1000 tokens. "

  /** The system prompt before the optional paragraph (shared with `app_with_streaming.py`). */
  function BasePrompt(report: string, semanticModel: string): string {
    ReportIqApp.Indent + ReportIqApp.RoleLine + ReportIqApp.Indent + ReportIqApp.ReportLine + report
    + ReportIqApp.Indent + DependencyLine + ReportIqApp.Indent + FormatLine + semanticModel
    + ReportIqApp.Indent + ShortLine + ReportIqApp.Indent
  }

  /** The user prompt (shared with `app_with_streaming.py`). */
  const UserPrompt :=
    ReportIqApp.Indent + TaskLine + ReportIqApp.Indent + SectionsLine + ReportIqApp.Indent + DetailLine + ReportIqApp.Closing

  // ---------------------------------------------------------------------
  // Upload instructions

  const InstructionsIndent := "\n                "
  const Instructions :=
    InstructionsIndent + "Please follow these steps to upload your .pbip project correctly:\n"
    + InstructionsIndent + "- Open your Power BI project in Power BI Desktop.\n"
    + InstructionsIndent + "- Go to File → Save As → Choose .pbip format."
    + InstructionsIndent + "- Power BI will create two folders:"
    + InstructionsIndent + "    - .Report"
    + InstructionsIndent + "    - .SemanticModel"
    + InstructionsIndent + "- Select both folders, right-click, and choose \"Send to > Compressed (zipped) folder\" to create a .zip file."
    + InstructionsIndent + "- Upload the .zip file using the form below."
    + "\n        "
  const ZipUploaderText := "Upload the aforementioned zip file"
  const GenericInfo := "Please select the desired file type"
  const GenericUploaderText := "Upload the selected file"

  /** `info_and_uploader`: the Power BI instructions and uploader label, or the generic pair for any other option. */
  function InfoAndUploader(option: string): (r: (string, string))
    ensures option == PowerBI <==> r == (Instructions, ZipUploaderText)
    ensures option != PowerBI <==> r == (GenericInfo, GenericUploaderText)
  {
    assert |ZipUploaderText| != |GenericUploaderText|;
    if option == PowerBI then (Instructions, ZipUploaderText) else (GenericInfo, GenericUploaderText)
  }
}
