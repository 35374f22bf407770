/**
 * Schema extraction from the TMDL text of a Power BI semantic model
 * (class `ERDiagramFromTMDL`): the table/column pass over the text blocks,
 * the `fromColumn`/`toColumn` relationship pass over the first block, the
 * HTML-like node label of each table, and the node and edge lists handed
 * to the graph renderer.
 */
module TmdlToEr {
  import opened Wrappers
  import opened Text

  // ---------------------------------------------------------------------
  // The ordered table dictionary

  /**
   * Python's insertion-ordered dict `table_columns`: its keys in insertion
   * order, and the column list stored under each.
   */
  datatype TableMap = TableMap(keys: seq<string>, columns: map<string, seq<string>>) {
    ghost predicate Valid() {
      && (forall i, j :: 0 <= i < j < |keys| ==> keys[i] != keys[j])
      && (forall k :: k in columns <==> k in keys)
    }
  }

  const EmptyTables := TableMap([], map[])

  /** `table_columns[name] = cols`: an existing key keeps its place, a new key goes last. */
  function Store(t: TableMap, name: string, cols: seq<string>): (r: TableMap)
    ensures t.Valid() ==> r.Valid()
    ensures r.columns == t.columns[name := cols]
  {
    TableMap(if name in t.columns then t.keys else t.keys + [name], t.columns[name := cols])
  }

  // ---------------------------------------------------------------------
  // Identifier lexing

  const Quote: char := '\''

  /**
   * `s[s.find("'"):end + 1]` with `end = s.find("'", s.find("'") + 1)`:
   * the span from the first quote of `s` to the next quote, both kept;
   * the empty string when that first quote is never closed.
   */
  function QuotedSpan(s: string): (r: string)
    requires Quote in s
    ensures r != [] ==> |r| >= 2 && r[0] == Quote && r[|r| - 1] == Quote && Quote !in r[1..|r| - 1]
    ensures r != [] ==> OccursAt(s, r, IndexOf(s, [Quote], 0))
  {
    CharFound(s, Quote);
    var first := IndexOf(s, [Quote], 0);
    var end := IndexOf(s, [Quote], first + 1);
    if end < 0 then ""
    else
      QuoteFree(s, first + 1, end);
      QuotedSpanOf(s, first, end);
      s[first..end + 1]
  }

  /** The span between two quotes with none in between is quoted, quote-free inside, and occurs where it was cut. */
  lemma QuotedSpanOf(s: string, first: nat, end: nat)
    requires first < end && OccursAt(s, [Quote], first) && OccursAt(s, [Quote], end)
    requires Quote !in s[first + 1..end]
    ensures var span := s[first..end + 1];
            && |span| >= 2 && span[0] == Quote && span[|span| - 1] == Quote
            && Quote !in span[1..|span| - 1] && OccursAt(s, span, first)
  {
    var span := s[first..end + 1];
    assert s[first] == s[first..first + 1][0] == Quote;
    assert s[end] == s[end..end + 1][0] == Quote;
    assert span[1..|span| - 1] == s[first + 1..end];
  }

  lemma CharFound(s: string, c: char)
    requires c in s
    ensures IndexOf(s, [c], 0) >= 0
  {
    var i :| 0 <= i < |s| && s[i] == c;
    assert s[i..i + 1] == [c];
    assert OccursAt(s, [c], i);
  }

  lemma QuoteFree(s: string, lo: nat, hi: nat)
    requires lo <= hi <= |s|
    requires forall i :: lo <= i < hi ==> !OccursAt(s, [Quote], i)
    ensures Quote !in s[lo..hi]
  {
    forall i | lo <= i < hi ensures s[i] != Quote {
      assert !OccursAt(s, [Quote], i);
      assert s[i..i + 1] == [s[i]];
    }
    forall j | 0 <= j < hi - lo ensures s[lo..hi][j] != Quote {
      assert s[lo..hi][j] == s[lo + j];
    }
  }

  // ---------------------------------------------------------------------
  // The table/column pass

  /** What one block contributes: nothing, one table, or an IndexError that aborts the pass. */
  datatype BlockParse = NotATable | Table(name: string, columns: seq<string>) | IndexError

  /** What one line of a table block contributes to its column list. */
  datatype ColumnLine = NotAColumn | ColumnDecl(name: string) | ColumnIndexError

  /**
   * `file.split(' ', 2)[1]`: quoted (first quote of the block to the next), or
   * else the first whitespace token of that word; `None` where Python raises
   * IndexError (no second word, or a second word made only of whitespace).
   */
  function TableName(file: string): Option<string> {
    var word := Split(file, ' ');
    if |word| < 2 then None
    else if StartsWith(word[1], [Quote]) then
      QuotedPiece(file, 1);
      Some(QuotedSpan(file))
    else FirstToken(word[1])
  }

  /**
   * One line of a table block: a column declaration when its first
   * `' '`-separated word, stripped, is `column`; the name is the quoted span
   * of the line or else the second word as it stands.
   */
  function ColumnLineOf(line: string): ColumnLine {
    var word := Split(line, ' ');
    if Strip(word[0]) != "column" then NotAColumn
    else if |word| < 2 then ColumnIndexError
    else if StartsWith(word[1], [Quote]) then
      QuotedPiece(line, 1);
      ColumnDecl(QuotedSpan(line))
    else ColumnDecl(word[1])
  }

  /** The column list of a block's lines, in line order; `None` on an IndexError. */
  function ScanColumns(lines: seq<string>): Option<seq<string>> {
    if lines == [] then Some([])
    else match ColumnLineOf(lines[0])
      case NotAColumn => ScanColumns(lines[1..])
      case ColumnIndexError => None
      case ColumnDecl(c) => Prepend([c], ScanColumns(lines[1..]))
  }

  function Prepend(cs: seq<string>, rest: Option<seq<string>>): Option<seq<string>> {
    if rest.None? then None else Some(cs + rest.value)
  }

  /** One block of `parse_tmdl_files`; empty and `relationship` blocks are no table. */
  function ParseBlock(file: string): (r: BlockParse)
    ensures r.NotATable? <==> file == "" || StartsWith(file, "relationship")
  {
    if StartsWith(file, "relationship") || file == "" then NotATable
    else match TableName(file)
      case None => IndexError
      case Some(name) =>
        match ScanColumns(Split(file, '\n'))
        case None => IndexError
        case Some(cs) => Table(name, cs)
  }

  /**
   * `parse_tmdl_files` from table dictionary `t`: the dictionary after the
   * blocks, and whether the pass got through all of them (on an IndexError
   * the tables stored before it stay stored).
   */
  function ParseTables(blocks: seq<string>, t: TableMap): (r: (TableMap, bool))
    ensures t.Valid() ==> r.0.Valid()
  {
    if blocks == [] then (t, true)
    else match ParseBlock(blocks[0])
      case NotATable => ParseTables(blocks[1..], t)
      case IndexError => (t, false)
      case Table(n, cs) => ParseTables(blocks[1..], Store(t, n, cs))
  }

  /** Every character of a piece of `s.split(sep)` is a character of `s`. */
  lemma PieceChars(s: string, sep: char, k: nat)
    requires k < |Split(s, sep)|
    ensures forall c :: c in Split(s, sep)[k] ==> c in s
  {
    SplitJoin(s, sep);
    JoinHolds(Split(s, sep), sep, k);
  }

  /** A `' '`-separated word that starts with a quote puts a quote in the line. */
  lemma QuotedPiece(s: string, k: nat)
    requires k < |Split(s, ' ')| && StartsWith(Split(s, ' ')[k], [Quote])
    ensures Quote in s
  {
    PieceChars(s, ' ', k);
    assert Split(s, ' ')[k][0] == Quote;
  }

  lemma {:induction false} JoinHolds(pieces: seq<string>, sep: char, k: nat)
    requires k < |pieces|
    ensures forall c :: c in pieces[k] ==> c in Join(pieces, sep)
  {
    if |pieces| > 1 {
      if k > 0 {
        JoinHolds(pieces[1..], sep, k - 1);
      }
    }
  }

  // ---------------------------------------------------------------------
  // The relationship pass

  datatype ForeignKey = ForeignKey(fkTable: string, fkColumn: string, refTable: string, refColumn: string)

  const FromMarker := "fromColumn:"
  const ToMarker := "toColumn:"
  const LocalDate := "LocalDate"

  /** `line.split(marker)[1].strip()` for a line that starts with `marker`. */
  function MarkerValue(line: string, marker: string): string
    requires marker != "" && StartsWith(line, marker)
  {
    Strip(BeforeFirst(line[|marker|..], marker))
  }

  /** `table, column = ref.split(".")`; `None` where Python raises ValueError (not exactly one dot). */
  function SplitReference(ref: string): Option<(string, string)> {
    var parts := Split(ref, '.');
    if |parts| == 2 then Some((parts[0], parts[1])) else None
  }

  /** A reference that unpacks is its table, a dot and its column, neither part holding a dot. */
  lemma SplitReferenceParts(ref: string)
    ensures SplitReference(ref).Some? ==>
              && ref == SplitReference(ref).value.0 + "." + SplitReference(ref).value.1
              && '.' !in SplitReference(ref).value.0 && '.' !in SplitReference(ref).value.1
  {
    SplitJoin(ref, '.');
    SplitPiecesClean(ref, '.');
  }

  /** What one line does to the relationship pass. */
  datatype RelStep = Pending(from: string) | Emit(edge: ForeignKey) | ValueError

  /**
   * One line of `parse_relationships`, given the pending `from_col` value
   * `from` (the empty string stands for `None`: both are falsy, and only
   * truthiness decides). The pending `to_col` is not part of the state: it
   * is always reassigned on the line that reads it. A `LocalDate`
   * reference skips the pair and clears nothing.
   */
  function RelationshipLine(raw: string, from: string): RelStep {
    var line := Strip(raw);
    if StartsWith(line, FromMarker) then Pending(MarkerValue(line, FromMarker))
    else if StartsWith(line, ToMarker) then PairStep(from, MarkerValue(line, ToMarker))
    else Pending(from)
  }

  /**
   * A `toColumn:` line with pending `from` and value `to`: no pair while
   * either is empty, the `LocalDate` skip (which keeps `from`), the edge,
   * or the ValueError of a reference without exactly one dot.
   */
  function PairStep(from: string, to: string): RelStep {
    if from == "" || to == "" then Pending(from)
    else if StartsWith(from, LocalDate) || StartsWith(to, LocalDate) then Pending(from)
    else
      match (SplitReference(from), SplitReference(to))
      case (Some(f), Some(t)) => Emit(ForeignKey(f.0, f.1, t.0, t.1))
      case _ => ValueError
  }

  /**
   * `parse_relationships` over `lines` from pending `from`: the edges
   * appended, in order, and whether the pass finished without ValueError
   * (the edges appended before a ValueError stay appended).
   */
  function ScanRelationships(lines: seq<string>, from: string): (r: (seq<ForeignKey>, bool))
  {
    if lines == [] then ([], true)
    else match RelationshipLine(lines[0], from)
      case Pending(f) => ScanRelationships(lines[1..], f)
      case Emit(e) =>
        var rest := ScanRelationships(lines[1..], "");
        ([e] + rest.0, rest.1)
      case ValueError => ([], false)
  }

  lemma ScanPending(lines: seq<string>, from: string, f: string)
    requires lines != [] && RelationshipLine(lines[0], from) == Pending(f)
    ensures ScanRelationships(lines, from) == ScanRelationships(lines[1..], f)
  {
  }

  lemma ScanValueError(lines: seq<string>, from: string)
    requires lines != [] && RelationshipLine(lines[0], from) == ValueError
    ensures ScanRelationships(lines, from) == ([], false)
  {
  }

  lemma ScanEmit(lines: seq<string>, from: string, e: ForeignKey)
    requires lines != [] && RelationshipLine(lines[0], from) == Emit(e)
    ensures ScanRelationships(lines, from) == ([e] + ScanRelationships(lines[1..], "").0, ScanRelationships(lines[1..], "").1)
  {
  }

  /** The pass over the lines still to read, from pending `from` on, after the edges already `emitted`. */
  function Resume(emitted: seq<ForeignKey>, rest: seq<string>, from: string): (seq<ForeignKey>, bool) {
    var tail := ScanRelationships(rest, from);
    (emitted + tail.0, tail.1)
  }

  lemma ResumeStart(lines: seq<string>)
    ensures ScanRelationships(lines, "") == Resume([], lines, "")
  {
    assert [] + ScanRelationships(lines, "").0 == ScanRelationships(lines, "").0;
  }

  lemma ResumeEnd(emitted: seq<ForeignKey>, from: string)
    ensures Resume(emitted, [], from) == (emitted, true)
  {
    assert emitted + [] == emitted;
  }

  lemma ResumeEmit(emitted: seq<ForeignKey>, rest: seq<string>, from: string, e: ForeignKey)
    requires rest != [] && RelationshipLine(rest[0], from) == Emit(e)
    ensures Resume(emitted, rest, from) == Resume(emitted + [e], rest[1..], "")
  {
    ScanEmit(rest, from, e);
    EmittedAssoc(emitted, e, ScanRelationships(rest[1..], "").0);
  }

  lemma EmittedAssoc(emitted: seq<ForeignKey>, e: ForeignKey, after: seq<ForeignKey>)
    ensures emitted + ([e] + after) == (emitted + [e]) + after
  {
  }

  /** One line of the pass: what `RelationshipLine` says about the next line decides how the pass goes on. */
  lemma ResumeStep(emitted: seq<ForeignKey>, rest: seq<string>, from: string)
    requires rest != []
    ensures Resume(emitted, rest, from)
            == match RelationshipLine(rest[0], from)
               case Pending(f) => Resume(emitted, rest[1..], f)
               case Emit(e) => Resume(emitted + [e], rest[1..], "")
               case ValueError => (emitted, false)
  {
    match RelationshipLine(rest[0], from)
    case Pending(f) => ScanPending(rest, from, f);
    case ValueError => ScanValueError(rest, from); assert emitted + [] == emitted;
    case Emit(e) => ResumeEmit(emitted, rest, from, e);
  }

  /** The relationship pass over the whole model: only `semantic_model[0]` is read; no block at all is an IndexError. */
  function RelationshipEdges(semanticModel: seq<string>): (seq<ForeignKey>, bool) {
    if semanticModel == [] then ([], false)
    else ScanRelationships(Split(semanticModel[0], '\n'), "")
  }

  // ---------------------------------------------------------------------
  // Node labels and the diagram

  const LabelHead := "<\n    <TABLE BORDER=\"1\" CELLBORDER=\"1\" CELLSPACING=\"0\">\n        <TR><TD BGCOLOR=\"lightblue\"><B>"
  const LabelHeadEnd := "</B></TD></TR>"
  const RowHead := "<TR><TD ALIGN=\"LEFT\" PORT=\""
  const RowMid := "\">"
  const RowEnd := "</TD></TR>"
  const LabelTail := "</TABLE>\n    >"

  /** The row of one column: its port and its text are both the column name. */
  function Row(column: string): string {
    RowHead + column + RowMid + column + RowEnd
  }

  /** One row per column, in column order. */
  function Rows(columns: seq<string>): string {
    if columns == [] then "" else Row(columns[0]) + Rows(columns[1..])
  }

  /** The label `generate_table_node` builds. */
  function TableLabel(name: string, columns: seq<string>): string {
    LabelHead + name + LabelHeadEnd + Rows(columns) + LabelTail
  }

  datatype Node = Node(name: string, labelText: string)
  /** `dot.edge(tail, head, label=...)`: endpoints are `table:column` ports. */
  datatype Edge = Edge(tail: string, head: string, labelText: string)
  datatype Diagram = Diagram(nodes: seq<Node>, edges: seq<Edge>)

  function EdgeOf(fk: ForeignKey): Edge {
    Edge(fk.fkTable + ":" + fk.fkColumn, fk.refTable + ":" + fk.refColumn, fk.fkColumn + " \U{2192} " + fk.refColumn)
  }

  /** One node per table, in dictionary order. */
  function NodesOf(t: TableMap): seq<Node>
    requires t.Valid()
  {
    seq(|t.keys|, i requires 0 <= i < |t.keys| => Node(t.keys[i], TableLabel(t.keys[i], t.columns[t.keys[i]])))
  }

  /** One edge per foreign key, in list order. */
  function EdgesOf(fks: seq<ForeignKey>): seq<Edge> {
    seq(|fks|, i requires 0 <= i < |fks| => EdgeOf(fks[i]))
  }

  /** What one `generate_er_diagram` call on a fresh object renders; `None` where it raises. */
  function ErDiagramOf(semanticModel: seq<string>): Option<Diagram> {
    var tables := ParseTables(semanticModel, EmptyTables);
    var rels := RelationshipEdges(semanticModel);
    if tables.1 && rels.1 then Some(Diagram(NodesOf(tables.0), EdgesOf(rels.0))) else None
  }

  /**
   * The inner loop of `parse_tmdl_files`: the column list of a block's
   * lines, in line order and with duplicates kept; `None` where a `column`
   * line has no second word (IndexError).
   */
  method ReadColumns(lines: seq<string>) returns (columns: Option<seq<string>>)
    ensures columns == ScanColumns(lines)
  {
    var found: seq<string> := [];
    var rest := lines;
    PrependNothing(ScanColumns(lines));
    while rest != []
      invariant ScanColumns(lines) == Prepend(found, ScanColumns(rest))
    {
      match ColumnLineOf(rest[0]) {
        case NotAColumn =>
        case ColumnIndexError =>
          return None;
        case ColumnDecl(c) =>
          PrependTwice(found, [c], ScanColumns(rest[1..]));
          found := found + [c];
      }
      rest := rest[1..];
    }
    assert found + [] == found;
    return Some(found);
  }

  lemma PrependNothing(rest: Option<seq<string>>)
    ensures Prepend([], rest) == rest
  {
    if rest.Some? {
      assert [] + rest.value == rest.value;
    }
  }

  lemma PrependTwice(a: seq<string>, b: seq<string>, rest: Option<seq<string>>)
    ensures Prepend(a, Prepend(b, rest)) == Prepend(a + b, rest)
  {
    if rest.Some? {
      assert a + (b + rest.value) == (a + b) + rest.value;
    }
  }

  // ---------------------------------------------------------------------
  // The class

  class ERDiagramFromTMDL {
    const semanticModel: seq<string>
    var tableColumns: TableMap
    var foreignKeys: seq<ForeignKey>

    ghost predicate Valid()
      reads this
    {
      tableColumns.Valid()
    }

    constructor (semanticModel: seq<string>)
      ensures Valid()
      ensures this.semanticModel == semanticModel
      ensures tableColumns == EmptyTables && foreignKeys == []
    {
      this.semanticModel := semanticModel;
      tableColumns := EmptyTables;
      foreignKeys := [];
    }

    /** `parse_tmdl_files`; `ok` is false where Python raises IndexError. */
    method ParseTmdlFiles() returns (ok: bool)
      requires Valid()
      modifies this`tableColumns
      ensures Valid()
      ensures (tableColumns, ok) == ParseTables(semanticModel, old(tableColumns))
    {
      var rest := semanticModel;
      while rest != []
        invariant tableColumns.Valid()
        invariant ParseTables(semanticModel, old(tableColumns)) == ParseTables(rest, tableColumns)
      {
        var file := rest[0];
        if !StartsWith(file, "relationship") && file != "" {
          var tableName := TableName(file);
          if tableName.None? {
            return false;
          }
          var columns := ReadColumns(Split(file, '\n'));
          if columns.None? {
            return false;
          }
          tableColumns := Store(tableColumns, tableName.value, columns.value);
        }
        rest := rest[1..];
      }
      return true;
    }

    /** `parse_relationships`; `ok` is false where Python raises IndexError or ValueError. */
    method ParseRelationships() returns (ok: bool)
      modifies this`foreignKeys
      ensures ok == RelationshipEdges(semanticModel).1
      ensures foreignKeys == old(foreignKeys) + RelationshipEdges(semanticModel).0
    {
      if |semanticModel| == 0 {
        return false;
      }
      ok := PairRelationships(Split(semanticModel[0], '\n'));
    }

    /**
     * The line loop of `parse_relationships`: the edges it appends to
     * `foreign_keys`, in order, and whether it finished without a
     * ValueError (the edges found before one stay appended).
     */
    method PairRelationships(lines: seq<string>) returns (ok: bool)
      modifies this`foreignKeys
      ensures ok == ScanRelationships(lines, "").1
      ensures foreignKeys == old(foreignKeys) + ScanRelationships(lines, "").0
    {
      var edges;
      edges, ok := CollectEdges(lines);
      foreignKeys := foreignKeys + edges;
    }

    /** The line loop itself: `from_col` is threaded from line to line and each completed pair is collected as it is found. */
    static method CollectEdges(lines: seq<string>) returns (edges: seq<ForeignKey>, ok: bool)
      ensures (edges, ok) == ScanRelationships(lines, "")
    {
      var fromCol := "";
      edges := [];
      var rest := lines;
      ResumeStart(lines);
      while rest != []
        invariant ScanRelationships(lines, "") == Resume(edges, rest, fromCol)
      {
        ResumeStep(edges, rest, fromCol);
        var step := RelationshipLine(rest[0], fromCol);
        match step {
          case Pending(f) =>
            fromCol := f;
          case ValueError =>
            return edges, false;
          case Emit(edge) =>
            edges := edges + [edge];
            fromCol := "";
        }
        rest := rest[1..];
      }
      ResumeEnd(edges, fromCol);
      return edges, true;
    }

    /** `generate_table_node`: the header row, then one row per column. */
    method GenerateTableNode(tableName: string, columns: seq<string>) returns (labelText: string)
      ensures labelText == TableLabel(tableName, columns)
    {
      labelText := LabelHead + tableName + LabelHeadEnd;
      var rest := columns;
      while rest != []
        invariant labelText + Rows(rest) == LabelHead + tableName + LabelHeadEnd + Rows(columns)
      {
        RowsAssoc(labelText, Row(rest[0]), Rows(rest[1..]));
        labelText := labelText + Row(rest[0]);
        rest := rest[1..];
      }
      assert labelText + "" == labelText;
      labelText := labelText + LabelTail;
    }

    /**
     * `generate_er_diagram` up to the renderer: re-parses both passes into
     * the fields, then one node per table and one edge per foreign key held.
     * `None` where a pass raises.
     */
    method GenerateErDiagram() returns (diagram: Option<Diagram>)
      requires Valid()
      modifies this
      ensures Valid()
      ensures tableColumns == ParseTables(semanticModel, old(tableColumns)).0
      ensures foreignKeys == old(foreignKeys)
                             + (if ParseTables(semanticModel, old(tableColumns)).1 then RelationshipEdges(semanticModel).0 else [])
      ensures diagram.Some? <==> ParseTables(semanticModel, old(tableColumns)).1 && RelationshipEdges(semanticModel).1
      ensures diagram.Some? ==> diagram.value == Diagram(NodesOf(tableColumns), EdgesOf(foreignKeys))
    {
      var tablesOk := ParseTmdlFiles();
      if !tablesOk {
        return None;
      }
      var relationshipsOk := ParseRelationships();
      if !relationshipsOk {
        return None;
      }
      var d := AssembleDiagram(tableColumns, foreignKeys);
      return Some(d);
    }

    /** The two loops of `generate_er_diagram` that feed the renderer. */
    method AssembleDiagram(tables: TableMap, fks: seq<ForeignKey>) returns (d: Diagram)
      requires tables.Valid()
      ensures d == Diagram(NodesOf(tables), EdgesOf(fks))
    {
      var nodes: seq<Node> := [];
      for i := 0 to |tables.keys|
        invariant |nodes| == i
        invariant forall j :: 0 <= j < i ==> nodes[j] == NodesOf(tables)[j]
      {
        var name := tables.keys[i];
        var labelText := GenerateTableNode(name, tables.columns[name]);
        nodes := nodes + [Node(name, labelText)];
      }
      var edges: seq<Edge> := [];
      for i := 0 to |fks|
        invariant |edges| == i
        invariant forall j :: 0 <= j < i ==> edges[j] == EdgeOf(fks[j])
      {
        edges := edges + [EdgeOf(fks[i])];
      }
      assert nodes == NodesOf(tables) && edges == EdgesOf(fks);
      return Diagram(nodes, edges);
    }
  }

  lemma RowsAssoc(done: string, row: string, rest: string)
    ensures done + (row + rest) == (done + row) + rest
  {
  }
}
