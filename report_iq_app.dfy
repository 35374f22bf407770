/**
 * The selectors of the ReportIQ application (`reportIQ/app.py`): which
 * archive members feed the semantic model, the processor that reads them
 * and draws the ER diagram, the two factories keyed on the file type, the
 * system prompt with its optional user-context paragraph, and the stem of
 * the download file names.
 */
module ReportIqApp {
  import opened Wrappers
  import opened Text
  import opened Upload
  import opened TmdlToEr

  /** The `elif` of the entry loop: table files and the relationships file, without date tables. */
  predicate IsModelEntry(name: string) {
    && !Contains(name, LocalDateDir)
    && !Contains(name, DateTemplateDir)
    && (EndsWith(name, RelationshipsFile) || Contains(name, TablesDir))
  }

  const LocalDateDir := "/LocalDate"
  const DateTemplateDir := "/DateTableTemplate"
  const RelationshipsFile := "relationships.tmdl"
  const TablesDir := "/tables/"

  /**
   * The three values `process` returns: the report text, the blocks, and
   * the diagram (`None` where drawing it raised).
   */
  datatype FileContents = FileContents(report: string, semanticModel: seq<string>, image: Option<Diagram>)

  /** What `process` returns for an upload. */
  function ProcessOf(file: UploadedFile): FileContents {
    var x := if file.archive.Some? then ExtractAll(file.archive.value, IsModelEntry) else Nothing;
    FileContents(x.report, x.blocks, ErDiagramOf(x.blocks))
  }

  /** `PowerBIProcessor`: holds the uploaded zip file. */
  datatype PowerBIProcessor = PowerBIProcessor(zipFile: UploadedFile) {

    /**
     * `process`: the entry loop (a file that is not a zip, or a member that
     * is not UTF-8, ends it with a warning), then the ER diagram of the
     * blocks read.
     */
    method Process() returns (contents: FileContents)
      ensures contents == ProcessOf(zipFile)
    {
      var report, blocks := "", [];
      if zipFile.archive.Some? {
        var complete;
        report, blocks, complete := ReadArchive(zipFile.archive.value, IsModelEntry);
      }
      var er := new ERDiagramFromTMDL(blocks);
      var image := er.GenerateErDiagram();
      if image.Some? {
        assert [] + RelationshipEdges(blocks).0 == RelationshipEdges(blocks).0;
      }
      assert image == ErDiagramOf(blocks);
      return FileContents(report, blocks, image);
    }
  }

  const FileFormatError := "We don't support this file format yet"
  const FileTypeError := "We don't support this file type yet."

  /** `FileProcessorFactory.get_file_processor`: `Err` is the `ValueError` it raises. */
  function GetFileProcessor(fileType: string, zipFile: UploadedFile): (r: Result<PowerBIProcessor, string>)
    ensures r.Ok? <==> fileType == PowerBI
    ensures r.Ok? ==> r.value.zipFile == zipFile
    ensures r.Err? ==> r.error == FileFormatError
  {
    if fileType == PowerBI then Ok(PowerBIProcessor(zipFile)) else Err(FileFormatError)
  }

  /**
   * `PowerBIContext`: the report text, the blocks and the user context. The
   * blocks enter the prompt as Python renders a list, which is the
   * `render` parameter of `SetContext`.
   */
  datatype PowerBIContext = PowerBIContext(report: string, semanticModel: seq<string>, userContext: string) {

    /** `set_context`: the system prompt, with the user-context paragraph only for a non-empty context, and the user prompt. */
    function SetContext(render: seq<string> -> string): (prompts: (string, string))
      ensures StartsWith(prompts.0, BasePrompt(report, render(semanticModel)))
      ensures |userContext| > 0 <==> |prompts.0| > |BasePrompt(report, render(semanticModel))|
      ensures |userContext| > 0 ==> EndsWith(prompts.0, ContextParagraph(userContext))
      ensures |userContext| > 0 ==> |prompts.0| == |BasePrompt(report, render(semanticModel))| + |ContextParagraph(userContext)|
      ensures prompts.1 == UserPrompt
    {
      var base := BasePrompt(report, render(semanticModel));
      var extra := if |userContext| > 0 then ContextParagraph(userContext) else [];
      Appended(base, extra);
      (base + extra, UserPrompt)
    }
  }

  /** `SetContextFactory.get_context`: `Err` is the `ValueError` it raises. */
  function GetContext(fileType: string, contents: FileContents, userContext: string): (r: Result<PowerBIContext, string>)
    ensures r.Ok? <==> fileType == PowerBI
    ensures r.Ok? ==> r.value == PowerBIContext(contents.report, contents.semanticModel, userContext)
    ensures r.Err? ==> r.error == FileTypeError
  {
    if fileType == PowerBI then Ok(PowerBIContext(contents.report, contents.semanticModel, userContext)) else Err(FileTypeError)
  }

  const Indent := "\n            "

  // The lines of the system prompt, each after an `Indent`.
  const RoleLine := "You are a PowerBI report specialist working on converting a report to documentation."
  const ReportLine := "Attached is the data from which you have to extract and make documentation for : "
  const ModelLine := "Extract as much data as possible and ive comprehensive info and overview of the report. All of the corresponding files are in .tmdl format. Data attached : "
  const LengthLine := "Make everything comprehensive, clear, avoid redundancy and finish everything under 1000 tokens. Give data dictionary in the form of a formatted table in markdown"

  /** The system prompt before the optional paragraph, with the report and the rendered blocks spliced in. */
  function BasePrompt(report: string, semanticModel: string): string {
    Indent + RoleLine + Indent + ReportLine + report + Indent + ModelLine + semanticModel + Indent + LengthLine + Indent
  }

  /** The paragraph appended for a non-empty user context. */
  function ContextParagraph(userContext: string): (paragraph: string)
    ensures |paragraph| > |userContext|
  {
    ContextHead + userContext
  }

  const ContextHead := "\n                    Also make sure you take into account the attached information which the user has given as context : "

  // The lines of the user prompt, each after an `Indent`.
  const TaskLine := "Generate documentation based on this power bi report.json file. Always give data dictionary formatted as a table."
  const SectionsLine := "It should have overview, key contacts, data flow, data explorer, and data dictionary."
  const DetailLine := "Make it comprehensive and give more information about the report. "
  const Closing := "\n        "

  const UserPrompt := Indent + TaskLine + Indent + SectionsLine + Indent + DetailLine + Closing

  /** The system prompt determines the user context: different non-empty contexts give different prompts. */
  lemma ContextRecoverable(c: PowerBIContext, d: PowerBIContext, render: seq<string> -> string)
    requires c.report == d.report && c.semanticModel == d.semanticModel
    ensures c.SetContext(render).0 == d.SetContext(render).0 ==> c.userContext == d.userContext
  {
    var base := BasePrompt(c.report, render(c.semanticModel));
    if c.SetContext(render).0 == d.SetContext(render).0 && c.userContext != "" && d.userContext != "" {
      CancelPrefix(base, ContextParagraph(c.userContext), ContextParagraph(d.userContext));
      CancelPrefix(ContextHead, c.userContext, d.userContext);
    }
  }

  // ---------------------------------------------------------------------
  // Download names

  /**
   * `file.name.split(".Report.zip")[0].split(".SemanticModel.zip")[0].split(".zip")[0]`:
   * the name is kept whole when it holds no `.zip`, and is otherwise cut
   * right before an occurrence of one of the three suffixes, early enough
   * that no `.zip` is left.
   */
  function DownloadStem(name: string): (stem: string)
    ensures StartsWith(name, stem)
    ensures !Contains(stem, ZipSuffix)
    ensures !Contains(name, ZipSuffix) ==> stem == name
    ensures || stem == name
            || OccursAt(name, ReportSuffix, |stem|)
            || OccursAt(name, ModelSuffix, |stem|)
            || OccursAt(name, ZipSuffix, |stem|)
  {
    var a := BeforeFirst(name, ReportSuffix);
    var b := BeforeFirst(a, ModelSuffix);
    var c := BeforeFirst(b, ZipSuffix);
    PrefixOfPrefix(name, a, b);
    PrefixOfPrefix(name, b, c);
    NoOccurrenceBefore(b, c, ZipSuffix);
    ZipFreeSplit(name, ReportSuffix);
    ZipFreeSplit(a, ModelSuffix);
    ZipFreeSplit(b, ZipSuffix);
    OccursInLonger(name, a, ModelSuffix, |b|);
    OccursInLonger(name, b, ZipSuffix, |c|);
    c
  }

  const ReportSuffix := ".Report.zip"
  const ModelSuffix := ".SemanticModel.zip"
  const ZipSuffix := ".zip"

  predicate IsSuffix(p: string) {
    p == ReportSuffix || p == ModelSuffix || p == ZipSuffix
  }

  /**
   * The stem of a zipped `.Report` folder, a zipped `.SemanticModel`
   * folder or a plain zip file is the project name, for any name free of
   * `.zip`; a plain zip whose name ends in `.Report` or `.SemanticModel`
   * is the one case the first two splits cut shorter.
   */
  lemma StemOfZippedFolder(stem: string, suffix: string)
    requires !Contains(stem, ZipSuffix)
    requires IsSuffix(suffix)
    requires suffix == ZipSuffix ==> !EndsWith(stem, ".Report") && !EndsWith(stem, ".SemanticModel")
    ensures DownloadStem(stem + suffix) == stem
  {
    var name := stem + suffix;
    ZipFreeSplit(stem, ModelSuffix);
    ZipFreeSplit(stem, ZipSuffix);
    if suffix == ReportSuffix {
      FirstAtEnd(stem, suffix);
    } else if suffix == ModelSuffix {
      ReportNotInModel(stem);
      NotFound(name, ReportSuffix);
      FirstAtEnd(stem, suffix);
    } else {
      NotInPlainZip(stem, ReportSuffix);
      NotFound(name, ReportSuffix);
      NotInPlainZip(stem, ModelSuffix);
      NotFound(name, ModelSuffix);
      FirstAtEnd(stem, suffix);
    }
  }

  /** A `.zip` at the end of `.zip`, `.Report.zip` or `.SemanticModel.zip` is the only one in it. */
  lemma ZipOnlyAtEnd(p: string, k: int)
    requires IsSuffix(p)
    ensures OccursAt(p, ZipSuffix, k) ==> k == |p| - 4
  {
    if OccursAt(p, ZipSuffix, k) {
      assert p[k] == p[k..k + 4][0] == '.';
      assert p[k + 1] == p[k..k + 4][1] == 'z';
    }
  }

  /** A `.zip` in `a + b`, with `a` free of `.zip` and `b` starting with a dot, lies inside `b`. */
  lemma ZipAt(a: string, b: string, j: int)
    requires !Contains(a, ZipSuffix) && b != [] && b[0] == '.'
    ensures OccursAt(a + b, ZipSuffix, j) ==> j >= |a| && OccursAt(b, ZipSuffix, j - |a|)
  {
    var s := a + b;
    if 0 <= j && j + 4 <= |a| {
      assert s[j..j + 4] == a[j..j + 4];
      assert !OccursAt(a, ZipSuffix, j);
    } else if 0 <= j < |a| && j + 4 <= |s| {
      assert s[j..j + 4][|a| - j] == b[0];
    } else if |a| <= j && j + 4 <= |s| {
      assert s[j..j + 4] == b[j - |a|..j - |a| + 4];
    }
  }

  /** Each of the three suffixes ends in `.zip`. */
  lemma ZipInside(s: string, p: string, j: int)
    requires IsSuffix(p)
    ensures OccursAt(s, p, j) ==> OccursAt(s, ZipSuffix, j + |p| - 4)
  {
    if OccursAt(s, p, j) {
      if p == ReportSuffix {
        assert p == ".Report" + ZipSuffix;
        OccursTail(s, ".Report", ZipSuffix, j);
      } else if p == ModelSuffix {
        assert p == ".SemanticModel" + ZipSuffix;
        OccursTail(s, ".SemanticModel", ZipSuffix, j);
      }
    }
  }

  /** Splitting a `.zip`-free name on a suffix keeps it whole. */
  lemma ZipFreeSplit(s: string, p: string)
    requires IsSuffix(p)
    ensures !Contains(s, ZipSuffix) ==> BeforeFirst(s, p) == s
  {
    if Contains(s, p) {
      ZipInside(s, p, IndexOf(s, p, 0));
      Occurs(s, ZipSuffix, IndexOf(s, p, 0) + |p| - 4);
    }
  }

  /** In a `.zip`-free name followed by a suffix, that suffix first occurs where it was appended. */
  lemma FirstAtEnd(stem: string, p: string)
    requires !Contains(stem, ZipSuffix) && IsSuffix(p)
    ensures BeforeFirst(stem + p, p) == stem
  {
    var s := stem + p;
    Appended(stem, p);
    assert s[|stem|..|stem| + |p|] == s[|s| - |p|..];
    forall j | 0 <= j < |stem|
      ensures !OccursAt(s, p, j)
    {
      ZipInside(s, p, j);
      ZipAt(stem, p, j + |p| - 4);
      ZipOnlyAtEnd(p, j + |p| - 4 - |stem|);
    }
    IndexOfIs(s, p, 0, |stem|);
  }

  /** `.Report.zip` does not occur in a `.zip`-free name followed by `.SemanticModel.zip`. */
  lemma ReportNotInModel(stem: string)
    requires !Contains(stem, ZipSuffix)
    ensures !Contains(stem + ModelSuffix, ReportSuffix)
  {
    forall j
      ensures !OccursAt(stem + ModelSuffix, ReportSuffix, j)
    {
      ReportInModelAt(stem, j);
      ReportNotAtModelTail(stem);
    }
  }

  /** Only the tail of `.SemanticModel.zip` could hold the `.zip` of a `.Report.zip`. */
  lemma ReportInModelAt(stem: string, j: int)
    requires !Contains(stem, ZipSuffix)
    ensures OccursAt(stem + ModelSuffix, ReportSuffix, j) ==> j == |stem| + 7
  {
    var s := stem + ModelSuffix;
    ZipInside(s, ReportSuffix, j);
    ZipAt(stem, ModelSuffix, j + 7);
    ZipOnlyAtEnd(ModelSuffix, j + 7 - |stem|);
  }

  /** The tail of `.SemanticModel.zip` starts with `i`, not with the dot of `.Report.zip`. */
  lemma ReportNotAtModelTail(stem: string)
    ensures !OccursAt(stem + ModelSuffix, ReportSuffix, |stem| + 7)
  {
    var s := stem + ModelSuffix;
    assert s[|stem| + 7] == ModelSuffix[7];
    assert s[|stem| + 7..|stem| + 18][0] == s[|stem| + 7];
  }

  /** `.Report.zip` or `.SemanticModel.zip` in a `.zip`-free name followed by `.zip` ends that name's own text. */
  lemma PlainZipOccurrence(stem: string, p: string, j: int)
    requires !Contains(stem, ZipSuffix)
    requires p == ReportSuffix || p == ModelSuffix
    ensures OccursAt(stem + ZipSuffix, p, j) ==> EndsWith(stem, p[..|p| - 4])
  {
    var s := stem + ZipSuffix;
    ZipInside(s, p, j);
    ZipAt(stem, ZipSuffix, j + |p| - 4);
    ZipOnlyAtEnd(ZipSuffix, j + |p| - 4 - |stem|);
    if OccursAt(s, p, j) {
      assert j == |stem| - (|p| - 4);
      assert stem[j..] == s[j..|stem|] == s[j..j + |p|][..|p| - 4];
    }
  }

  /**
   * `.Report.zip` or `.SemanticModel.zip` does not occur in a `.zip`-free
   * name followed by `.zip`, unless the name ends in `.Report` or
   * `.SemanticModel`.
   */
  lemma NotInPlainZip(stem: string, p: string)
    requires !Contains(stem, ZipSuffix)
    requires p == ReportSuffix || p == ModelSuffix
    requires !EndsWith(stem, p[..|p| - 4])
    ensures !Contains(stem + ZipSuffix, p)
  {
    forall j
      ensures !OccursAt(stem + ZipSuffix, p, j)
    {
      PlainZipOccurrence(stem, p, j);
    }
  }

}
