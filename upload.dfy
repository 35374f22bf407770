/**
 * The uploaded Power BI project archive and the entry loop the
 * processors run over it: `report.json` replaces the report text, an
 * entry the application's filter selects is appended as a semantic-model
 * block, and reading stops at the first entry whose bytes are not UTF-8.
 */
module Upload {
  import opened Wrappers
  import opened Text

  /** One archive member: its path inside the zip file and its bytes. */
  datatype Entry = Entry(name: string, data: Payload)

  /** The uploaded file: its name, and its members in archive order (`None` when it is not a zip file). */
  datatype UploadedFile = UploadedFile(name: string, archive: Option<seq<Entry>>)

  /** The selector value the three applications compare the file type against. */
  const PowerBI := "Power BI"

  /** The report text and the semantic-model blocks read so far, and whether the loop ran to the end. */
  datatype Extracted = Extracted(report: string, blocks: seq<string>, complete: bool)

  const Nothing := Extracted("", [], true)

  predicate IsReportEntry(name: string) {
    EndsWith(name, "report.json")
  }

  /**
   * One pass of the entry loop: `report.json` first, then the
   * application's own filter (the `elif`); reading an entry that is not
   * UTF-8 raises, which ends the loop with what was read before it.
   */
  function ExtractStep(acc: Extracted, e: Entry, selected: string -> bool): Extracted {
    if !acc.complete then acc
    else if IsReportEntry(e.name) then
      match e.data
      case Undecodable => acc.(complete := false)
      case Decoded(text) => acc.(report := text)
    else if selected(e.name) then
      match e.data
      case Undecodable => acc.(complete := false)
      case Decoded(text) => acc.(blocks := acc.blocks + [text])
    else acc
  }

  /** The entry loop over the members in archive order. */
  function ExtractAll(entries: seq<Entry>, selected: string -> bool): Extracted {
    if entries == [] then Nothing
    else ExtractStep(ExtractAll(entries[..|entries| - 1], selected), entries[|entries| - 1], selected)
  }

  /** The entry loop of `PowerBIProcessor.process`, inside its `try`. */
  method ReadArchive(entries: seq<Entry>, selected: string -> bool) returns (report: string, blocks: seq<string>, complete: bool)
    ensures Extracted(report, blocks, complete) == ExtractAll(entries, selected)
  {
    report, blocks, complete := "", [], true;
    var k := 0;
    while k < |entries|
      invariant 0 <= k <= |entries|
      invariant Extracted(report, blocks, complete) == ExtractAll(entries[..k], selected)
    {
      assert entries[..k + 1][..k] == entries[..k];
      var e := entries[k];
      if IsReportEntry(e.name) {
        match e.data {
          case Undecodable =>
            complete := false;
            break;
          case Decoded(text) =>
            report := text;
        }
      } else if selected(e.name) {
        match e.data {
          case Undecodable =>
            complete := false;
            break;
          case Decoded(text) =>
            blocks := blocks + [text];
        }
      }
      k := k + 1;
    }
    if !complete {
      ExtractStops(entries, k, selected);
    } else {
      assert entries[..k] == entries;
    }
  }

  /** Once an entry has raised, the later entries change nothing. */
  lemma {:induction false} ExtractStops(entries: seq<Entry>, k: nat, selected: string -> bool)
    requires k < |entries|
    requires !ExtractAll(entries[..k + 1], selected).complete
    ensures ExtractAll(entries, selected) == ExtractAll(entries[..k + 1], selected)
    decreases |entries|
  {
    if k + 1 == |entries| {
      assert entries[..k + 1] == entries;
    } else {
      var shorter := entries[..|entries| - 1];
      assert shorter[..k + 1] == entries[..k + 1];
      ExtractStops(shorter, k, selected);
    }
  }

  // ---------------------------------------------------------------------
  // Reference definitions of what the loop reads

  /** Every entry can be read. */
  predicate AllDecodable(entries: seq<Entry>) {
    forall i :: 0 <= i < |entries| ==> entries[i].data.Decoded?
  }

  /** The texts of the entries the filter selects (and that are not `report.json`), in archive order. */
  function SelectedTexts(entries: seq<Entry>, selected: string -> bool): seq<string>
    requires AllDecodable(entries)
  {
    if entries == [] then []
    else
      var e := entries[|entries| - 1];
      SelectedTexts(entries[..|entries| - 1], selected)
      + (if !IsReportEntry(e.name) && selected(e.name) then [e.data.text] else [])
  }

  /** The text of the last `report.json` member, or the empty string when there is none. */
  function LastReport(entries: seq<Entry>): string
    requires AllDecodable(entries)
  {
    if entries == [] then ""
    else if IsReportEntry(entries[|entries| - 1].name) then entries[|entries| - 1].data.text
    else LastReport(entries[..|entries| - 1])
  }

  /**
   * When every member can be read, the loop reads them all: the blocks are
   * exactly the selected texts in archive order, and the report is the
   * last `report.json` seen.
   */
  lemma {:induction false} ExtractAllDecodable(entries: seq<Entry>, selected: string -> bool)
    requires AllDecodable(entries)
    ensures ExtractAll(entries, selected) == Extracted(LastReport(entries), SelectedTexts(entries, selected), true)
  {
    if entries != [] {
      var shorter := entries[..|entries| - 1];
      assert AllDecodable(shorter) by {
        forall i | 0 <= i < |shorter| ensures shorter[i].data.Decoded? {
          assert shorter[i] == entries[i];
        }
      }
      ExtractAllDecodable(shorter, selected);
    }
  }

  /** Reading stops at the first member that is read and is not UTF-8: no block after it is kept. */
  lemma {:induction false} ExtractIncomplete(entries: seq<Entry>, selected: string -> bool)
    ensures |ExtractAll(entries, selected).blocks| <= |entries|
    ensures !ExtractAll(entries, selected).complete ==>
              exists i :: 0 <= i < |entries| && entries[i].data == Undecodable
                          && (IsReportEntry(entries[i].name) || selected(entries[i].name))
  {
    if entries != [] {
      var shorter := entries[..|entries| - 1];
      ExtractIncomplete(shorter, selected);
      if !ExtractAll(shorter, selected).complete {
        var i :| 0 <= i < |shorter| && shorter[i].data == Undecodable
                 && (IsReportEntry(shorter[i].name) || selected(shorter[i].name));
        assert entries[i] == shorter[i];
      }
    }
  }

  /** Two filters that agree on every member name read the same archive alike. */
  lemma {:induction false} ExtractAgree(entries: seq<Entry>, f: string -> bool, g: string -> bool)
    requires forall i :: 0 <= i < |entries| ==> f(entries[i].name) == g(entries[i].name)
    ensures ExtractAll(entries, f) == ExtractAll(entries, g)
  {
    if entries != [] {
      var shorter := entries[..|entries| - 1];
      assert forall i :: 0 <= i < |shorter| ==> shorter[i] == entries[i];
      ExtractAgree(shorter, f, g);
    }
  }
}
