/**
 * What the passes of `ERDiagramFromTMDL` guarantee: how the table pass
 * composes over blocks (the last block naming a table wins, and running
 * the pass again changes nothing), which TMDL text yields which tables
 * and which edges, the `LocalDate` exclusion, and that a node label
 * determines its table.
 */
module TmdlProperties {
  import opened Wrappers
  import opened Text
  import opened TmdlToEr

  // ---------------------------------------------------------------------
  // The table pass as a sequence of dictionary stores

  /** The tables the blocks define before the first IndexError, in block order. */
  function Entries(blocks: seq<string>): seq<(string, seq<string>)> {
    if blocks == [] then []
    else match ParseBlock(blocks[0])
      case NotATable => Entries(blocks[1..])
      case IndexError => []
      case Table(n, cs) => [(n, cs)] + Entries(blocks[1..])
  }

  /** No block raises IndexError. */
  predicate Completes(blocks: seq<string>) {
    forall i :: 0 <= i < |blocks| ==> !ParseBlock(blocks[i]).IndexError?
  }

  /** `table_columns[n] = cs` for each entry in turn. */
  function StoreAll(t: TableMap, entries: seq<(string, seq<string>)>): TableMap
    decreases |entries|
  {
    if entries == [] then t else StoreAll(Store(t, entries[0].0, entries[0].1), entries[1..])
  }

  /** The column list of each name's last entry. */
  function LastWrites(entries: seq<(string, seq<string>)>): map<string, seq<string>> {
    if entries == [] then map[] else map[entries[0].0 := entries[0].1] + LastWrites(entries[1..])
  }

  /** The pass stores the entries one after another, and fails exactly when some block raises. */
  lemma {:induction false} ParseTablesFold(blocks: seq<string>, t: TableMap)
    ensures ParseTables(blocks, t) == (StoreAll(t, Entries(blocks)), Completes(blocks))
  {
    if blocks != [] {
      var rest := blocks[1..];
      assert forall i :: 1 <= i < |blocks| ==> blocks[i] == rest[i - 1];
      match ParseBlock(blocks[0]) {
        case NotATable =>
          ParseTablesFold(rest, t);
        case IndexError =>
          assert !Completes(blocks);
        case Table(n, cs) =>
          ParseTablesFold(rest, Store(t, n, cs));
          assert ([(n, cs)] + Entries(rest))[1..] == Entries(rest);
      }
    }
  }

  /** After the stores, each stored name maps to its last column list; every other name is as before. */
  lemma {:induction false} StoreAllColumns(t: TableMap, entries: seq<(string, seq<string>)>)
    ensures StoreAll(t, entries).columns == t.columns + LastWrites(entries)
    decreases |entries|
  {
    if entries == [] {
      assert t.columns + map[] == t.columns;
    } else {
      var (n, cs) := entries[0];
      StoreAllColumns(Store(t, n, cs), entries[1..]);
      assert LastWrites(entries) == map[n := cs] + LastWrites(entries[1..]);
      UpdateThenOverride(t.columns, n, cs, LastWrites(entries[1..]));
    }
  }

  lemma UpdateThenOverride(m: map<string, seq<string>>, n: string, cs: seq<string>, later: map<string, seq<string>>)
    ensures m[n := cs] + later == m + (map[n := cs] + later)
  {
    var lhs, rhs := m[n := cs] + later, m + (map[n := cs] + later);
    assert forall k :: k in lhs <==> k in rhs;
    forall k | k in lhs
      ensures lhs[k] == rhs[k]
    {
    }
  }

  /** Every entry's name is a key of `LastWrites`. */
  lemma {:induction false} LastWritesNames(entries: seq<(string, seq<string>)>)
    ensures forall i :: 0 <= i < |entries| ==> entries[i].0 in LastWrites(entries)
  {
    if entries != [] {
      LastWritesNames(entries[1..]);
      assert forall i :: 1 <= i < |entries| ==> entries[i] == entries[1..][i - 1];
    }
  }

  /** Storing names that are all present already leaves the key order as it was. */
  lemma {:induction false} StoreAllKeepsKeys(t: TableMap, entries: seq<(string, seq<string>)>)
    requires forall i :: 0 <= i < |entries| ==> entries[i].0 in t.columns
    ensures StoreAll(t, entries).keys == t.keys
    decreases |entries|
  {
    if entries != [] {
      var (n, cs) := entries[0];
      assert forall i :: 1 <= i < |entries| ==> entries[i] == entries[1..][i - 1];
      StoreAllKeepsKeys(Store(t, n, cs), entries[1..]);
    }
  }

  /** The dictionary after the pass: every table defined before an IndexError holds the columns of its last block. */
  lemma ParseTablesColumns(blocks: seq<string>, t: TableMap)
    ensures ParseTables(blocks, t).0.columns == t.columns + LastWrites(Entries(blocks))
  {
    ParseTablesFold(blocks, t);
    StoreAllColumns(t, Entries(blocks));
  }

  /**
   * Re-parsing into the dictionary a pass produced reproduces it, keys in
   * the same order, and fails the same way: `table_columns` is the same
   * after every `generate_er_diagram` call.
   */
  lemma ParseTablesIdempotent(blocks: seq<string>, t: TableMap)
    ensures ParseTables(blocks, ParseTables(blocks, t).0) == ParseTables(blocks, t)
  {
    var entries := Entries(blocks);
    var once := StoreAll(t, entries);
    ParseTablesFold(blocks, t);
    ParseTablesFold(blocks, once);
    StoreAllColumns(t, entries);
    StoreAllColumns(once, entries);
    LastWritesNames(entries);
    StoreAllKeepsKeys(once, entries);
    var lw := LastWrites(entries);
    assert (t.columns + lw) + lw == t.columns + lw;
  }

  /** The pass over `a + b` is the pass over `a`, then, unless it raised, the pass over `b` from there. */
  lemma {:induction false} ParseTablesAppend(a: seq<string>, b: seq<string>, t: TableMap)
    ensures ParseTables(a + b, t)
            == if ParseTables(a, t).1 then ParseTables(b, ParseTables(a, t).0) else ParseTables(a, t)
  {
    if a == [] {
      assert a + b == b;
    } else {
      assert (a + b)[0] == a[0] && (a + b)[1..] == a[1..] + b;
      match ParseBlock(a[0]) {
        case NotATable => ParseTablesAppend(a[1..], b, t);
        case IndexError =>
        case Table(n, cs) => ParseTablesAppend(a[1..], b, Store(t, n, cs));
      }
    }
  }

  /**
   * A later block for a table replaces its column list; every other table
   * keeps its columns, and a table already present keeps its place.
   */
  lemma LaterBlockReplaces(blocks: seq<string>, block: string, t: TableMap, name: string, columns: seq<string>)
    requires ParseTables(blocks, t).1
    requires ParseBlock(block) == Table(name, columns)
    ensures ParseTables(blocks + [block], t).1
    ensures ParseTables(blocks + [block], t).0.columns == ParseTables(blocks, t).0.columns[name := columns]
    ensures name in ParseTables(blocks, t).0.columns ==> ParseTables(blocks + [block], t).0.keys == ParseTables(blocks, t).0.keys
  {
    ParseTablesAppend(blocks, [block], t);
    var mid := ParseTables(blocks, t).0;
    assert ParseTables([block], mid) == ParseTables([], Store(mid, name, columns));
  }

  // ---------------------------------------------------------------------
  // Which TMDL text yields which table

  /** A quoted TMDL name: quotes at both ends, none inside, no line break. */
  predicate IsQuoted(s: string) {
    |s| >= 2 && s[0] == Quote && s[|s| - 1] == Quote && Quote !in s[1..|s| - 1] && '\n' !in s
  }

  /** A table or column name as TMDL writes it: a bare word not starting with a quote, or a quoted name. */
  predicate IsName(s: string) {
    (s != "" && NoSpace(s) && s[0] != Quote) || IsQuoted(s)
  }

  /** One tab-indented `column` line per column, each after a line break. */
  function ColumnLines(columns: seq<string>): string {
    if columns == [] then "" else "\n\tcolumn " + columns[0] + ColumnLines(columns[1..])
  }

  /** The lines `ColumnLines` writes. */
  function ColumnRows(columns: seq<string>): seq<string> {
    seq(|columns|, i requires 0 <= i < |columns| => "\tcolumn " + columns[i])
  }

  /** A table block: the `table` line, then its columns. */
  function TableBlock(name: string, columns: seq<string>): string {
    "table " + name + ColumnLines(columns)
  }

  lemma NameHasNoBreak(s: string)
    requires IsName(s)
    ensures '\n' !in s
  {
    if !IsQuoted(s) {
      forall i | 0 <= i < |s| ensures s[i] != '\n' {
        assert !IsSpace(s[i]);
      }
    }
  }

  /** The first piece of `s.split(sep)` starts with the first character of `s` when that is not `sep`. */
  lemma SplitFirstPiece(s: string, sep: char)
    requires s != [] && s[0] != sep
    ensures Split(s, sep)[0] != [] && Split(s, sep)[0][0] == s[0]
  {
  }

  /** The quoted span of a text whose first quote opens a quoted name is that name. */
  lemma QuotedSpanAfter(pre: string, q: string, post: string)
    requires Quote !in pre
    requires |q| >= 2 && q[0] == Quote && q[|q| - 1] == Quote && Quote !in q[1..|q| - 1]
    ensures Quote in pre + q + post
    ensures QuotedSpan(pre + q + post) == q
  {
    var s := pre + q + post;
    var first, end := |pre|, |pre| + |q| - 1;
    assert s[first] == Quote && s[end] == Quote;
    OccursChar(s, Quote, first);
    OccursChar(s, Quote, end);
    forall j | 0 <= j < first
      ensures !OccursAt(s, [Quote], j)
    {
      OccursChar(s, Quote, j);
      assert s[j] == pre[j];
    }
    IndexOfIs(s, [Quote], 0, first);
    forall j | first + 1 <= j < end
      ensures !OccursAt(s, [Quote], j)
    {
      OccursChar(s, Quote, j);
      assert s[j] == q[j - first] == q[1..|q| - 1][j - first - 1];
    }
    IndexOfIs(s, [Quote], first + 1, end);
    assert s[first..end + 1] == q;
  }

  /** The words of a `column` line: the keyword with its tab, then the words of the name. */
  lemma ColumnRowWords(c: string)
    ensures Split("\tcolumn " + c, ' ') == ["\tcolumn"] + Split(c, ' ')
  {
    assert "\tcolumn " + c == "\tcolumn" + [' '] + c;
    SplitAt("\tcolumn", c, ' ');
  }

  lemma ColumnKeyword()
    ensures Strip("\tcolumn") == "column"
  {
    assert "\tcolumn" == "\t" + "column";
    StripLeading("\t", "column");
    StripClean("column");
  }

  lemma NoSpaceNoBlank(s: string)
    requires NoSpace(s)
    ensures ' ' !in s
  {
    forall i | 0 <= i < |s| ensures s[i] != ' ' {
      assert !IsSpace(s[i]);
    }
  }

  /** `\tcolumn <name>` declares exactly that column, quotes kept. */
  lemma ColumnRowParses(c: string)
    requires IsName(c)
    ensures ColumnLineOf("\tcolumn " + c) == ColumnDecl(c)
  {
    var line := "\tcolumn " + c;
    ColumnRowWords(c);
    ColumnKeyword();
    var word := Split(line, ' ');
    assert word[1] == Split(c, ' ')[0];
    if IsQuoted(c) {
      SplitFirstPiece(c, ' ');
      assert StartsWith(word[1], [Quote]);
      QuotedSpanAfter("\tcolumn ", c, "");
      assert line + "" == line;
    } else {
      NoSpaceNoBlank(c);
      SplitNone(c, ' ');
      assert !StartsWith(word[1], [Quote]);
    }
  }

  /** Lines that each declare one column declare those columns, in order. */
  lemma {:induction false} ScanDeclarations(lines: seq<string>, columns: seq<string>)
    requires |lines| == |columns|
    requires forall i :: 0 <= i < |lines| ==> ColumnLineOf(lines[i]) == ColumnDecl(columns[i])
    ensures ScanColumns(lines) == Some(columns)
  {
    if lines != [] {
      assert ColumnLineOf(lines[0]) == ColumnDecl(columns[0]);
      DeclarationStep(lines, columns[0]);
      ScanDeclarations(lines[1..], columns[1..]);
      assert [columns[0]] + columns[1..] == columns;
    }
  }

  lemma DeclarationStep(lines: seq<string>, column: string)
    requires lines != [] && ColumnLineOf(lines[0]) == ColumnDecl(column)
    ensures ScanColumns(lines) == Prepend([column], ScanColumns(lines[1..]))
  {
  }

  /** The column lines of a block declare its columns, in order and with repeats. */
  lemma ScanColumnRows(columns: seq<string>)
    requires forall i :: 0 <= i < |columns| ==> IsName(columns[i])
    ensures ScanColumns(ColumnRows(columns)) == Some(columns)
  {
    var rows := ColumnRows(columns);
    forall i | 0 <= i < |rows|
      ensures ColumnLineOf(rows[i]) == ColumnDecl(columns[i])
    {
      ColumnRowParses(columns[i]);
    }
    ScanDeclarations(rows, columns);
  }

  /** Splitting a block into lines: its first line, then one line per column. */
  lemma {:induction false} SplitColumnLines(head: string, columns: seq<string>)
    requires '\n' !in head
    requires forall i :: 0 <= i < |columns| ==> '\n' !in columns[i]
    ensures Split(head + ColumnLines(columns), '\n') == [head] + ColumnRows(columns)
    decreases |columns|
  {
    if columns == [] {
      assert head + "" == head;
      SplitNone(head, '\n');
    } else {
      var next := "\tcolumn " + columns[0];
      ColumnLinesStep(head, columns);
      ColumnRowNoBreak(columns[0]);
      TailNoBreak(columns);
      SplitColumnLines(next, columns[1..]);
      assert [next] + ColumnRows(columns[1..]) == ColumnRows(columns);
    }
  }

  /** The first line break of a block ends its first line; the next line is the first column's. */
  lemma ColumnLinesStep(head: string, columns: seq<string>)
    requires '\n' !in head && columns != []
    ensures Split(head + ColumnLines(columns), '\n')
            == [head] + Split("\tcolumn " + columns[0] + ColumnLines(columns[1..]), '\n')
  {
    var x := "\tcolumn " + columns[0] + ColumnLines(columns[1..]);
    ColumnLinesCons(columns);
    assert head + ColumnLines(columns) == head + ['\n'] + x;
    SplitAt(head, x, '\n');
  }

  lemma ColumnLinesCons(columns: seq<string>)
    requires columns != []
    ensures ColumnLines(columns) == ['\n'] + ("\tcolumn " + columns[0] + ColumnLines(columns[1..]))
  {
    assert "\n\tcolumn " == ['\n'] + "\tcolumn ";
  }

  lemma ColumnRowNoBreak(c: string)
    requires '\n' !in c
    ensures '\n' !in "\tcolumn " + c
  {
    assert forall x :: x in "\tcolumn " + c ==> x in "\tcolumn " || x in c;
  }

  lemma TailNoBreak(columns: seq<string>)
    requires columns != [] && forall i :: 0 <= i < |columns| ==> '\n' !in columns[i]
    ensures '\n' !in columns[0] && forall i :: 0 <= i < |columns[1..]| ==> '\n' !in columns[1..][i]
  {
    forall i | 0 <= i < |columns[1..]| ensures '\n' !in columns[1..][i] {
      assert columns[1..][i] == columns[i + 1];
    }
  }

  /** The name the table pass reads from a table block is the name it was written with. */
  lemma TableNameOf(name: string, columns: seq<string>)
    requires IsName(name)
    ensures TableName(TableBlock(name, columns)) == Some(name)
  {
    var rest := ColumnLines(columns);
    var file := TableBlock(name, columns);
    assert file == "table" + [' '] + (name + rest);
    SplitAt("table", name + rest, ' ');
    var word := Split(file, ' ');
    assert word[1] == Split(name + rest, ' ')[0];
    SplitFirstPiece(name + rest, ' ');
    if IsQuoted(name) {
      assert word[1][..1] == [Quote];
      assert file == "table " + name + rest;
      QuotedSpanAfter("table ", name, rest);
    } else {
      NoSpaceNoBlank(name);
      SplitPrefix(name, rest, ' ');
      var after := Split(rest, ' ')[0];
      assert word[1] == name + after;
      if rest != [] {
        assert rest[0] == '\n';
        SplitFirstPiece(rest, ' ');
      }
      TakeWordPrefix(name, after);
      assert word[1][..1] != [Quote];
    }
  }

  /** The `table` line of a block declares no column. */
  lemma TableLineIsNoColumn(name: string)
    ensures ColumnLineOf("table " + name) == NotAColumn
  {
    assert "table " + name == "table" + [' '] + name;
    SplitAt("table", name, ' ');
    StripClean("table");
  }

  /** The lines of a table block: the `table` line, then one line per column. */
  lemma TableBlockLines(name: string, columns: seq<string>)
    requires IsName(name)
    requires forall i :: 0 <= i < |columns| ==> IsName(columns[i])
    ensures Split(TableBlock(name, columns), '\n') == ["table " + name] + ColumnRows(columns)
  {
    NameHasNoBreak(name);
    forall i | 0 <= i < |columns| ensures '\n' !in columns[i] {
      NameHasNoBreak(columns[i]);
    }
    assert TableBlock(name, columns) == ("table " + name) + ColumnLines(columns);
    SplitColumnLines("table " + name, columns);
  }

  lemma ScanColumnsSkip(lines: seq<string>)
    requires lines != [] && ColumnLineOf(lines[0]) == NotAColumn
    ensures ScanColumns(lines) == ScanColumns(lines[1..])
  {
  }

  /**
   * A table block parses to its table: the name as written (quotes kept)
   * and one column per `column` line, in order.
   */
  lemma TableBlockRoundTrip(name: string, columns: seq<string>)
    requires IsName(name)
    requires forall i :: 0 <= i < |columns| ==> IsName(columns[i])
    ensures ParseBlock(TableBlock(name, columns)) == Table(name, columns)
  {
    var file := TableBlock(name, columns);
    assert file[0] == 't' && file != "";
    assert !StartsWith(file, "relationship");
    TableNameOf(name, columns);
    TableBlockLines(name, columns);
    var lines := Split(file, '\n');
    TableLineIsNoColumn(name);
    ScanColumnsSkip(lines);
    assert lines[1..] == ColumnRows(columns);
    ScanColumnRows(columns);
  }

  /** A line indented with spaces has an empty first word, so it never declares a column. */
  lemma SpaceIndentedLineIsNoColumn(line: string)
    requires line != [] && line[0] == ' '
    ensures ColumnLineOf(line) == NotAColumn
  {
    assert Split(line, ' ')[0] == "";
  }

  // ---------------------------------------------------------------------
  // Which relationship lines yield which edges

  /** A `table.column` reference as TMDL writes it: no whitespace, dot or colon in either part. */
  predicate IsReference(table: string, column: string) {
    && NoSpace(table) && NoSpace(column)
    && '.' !in table && '.' !in column && ':' !in table && ':' !in column
  }

  /** Both ends of an edge are references, and neither table starts with `LocalDate`. */
  predicate IsModelEdge(fk: ForeignKey) {
    && IsReference(fk.fkTable, fk.fkColumn) && IsReference(fk.refTable, fk.refColumn)
    && !StartsWith(fk.fkTable, LocalDate) && !StartsWith(fk.refTable, LocalDate)
  }

  function Reference(table: string, column: string): string {
    table + "." + column
  }

  /** The `fromColumn:` line of a relationship, tab-indented. */
  function FromLine(fk: ForeignKey): string {
    "\t" + (FromMarker + " " + Reference(fk.fkTable, fk.fkColumn))
  }

  /** The `toColumn:` line of a relationship, tab-indented. */
  function ToLine(fk: ForeignKey): string {
    "\t" + (ToMarker + " " + Reference(fk.refTable, fk.refColumn))
  }

  /** The `fromColumn`/`toColumn` line pair of each relationship, in order. */
  function RelationshipRows(fks: seq<ForeignKey>): seq<string> {
    if fks == [] then [] else [FromLine(fks[0]), ToLine(fks[0])] + RelationshipRows(fks[1..])
  }

  /** Whatever follows a prefix does not undo it. */
  lemma PrefixStays(a: string, b: string, p: string)
    ensures StartsWith(a, p) ==> StartsWith(a + b, p)
  {
    if StartsWith(a, p) {
      assert (a + b)[..|p|] == a[..|p|];
    }
  }

  /** A reference starts with whatever its table name starts with. */
  lemma ReferenceKeepsPrefix(table: string, column: string, p: string)
    requires StartsWith(table, p)
    ensures StartsWith(Reference(table, column), p)
  {
    PrefixStays(table + ".", column, p);
    PrefixStays(table, ".", p);
  }

  /** A reference text is one whitespace- and colon-free word that splits back into its parts. */
  lemma ReferenceText(table: string, column: string)
    requires IsReference(table, column)
    ensures Reference(table, column) != ""
    ensures NoSpace(Reference(table, column)) && ':' !in Reference(table, column)
    ensures SplitReference(Reference(table, column)) == Some((table, column))
  {
    var r := Reference(table, column);
    assert r == table + ['.'] + column;
    assert forall i :: 0 <= i < |r| ==> r[i] == '.' || r[i] in table || r[i] in column;
    SplitAt(table, column, '.');
    SplitNone(column, '.');
  }

  /** A table name that does not start with `LocalDate`, and has no dot, gives a reference that does not either. */
  lemma NoLocalDateReference(table: string, column: string)
    requires '.' !in table && !StartsWith(table, LocalDate)
    ensures !StartsWith(Reference(table, column), LocalDate)
  {
    var r := Reference(table, column);
    var n := |LocalDate|;
    if |r| >= n {
      if |table| >= n {
        assert r[..n] == table[..n];
      } else {
        assert r[..n][|table|] == '.' != LocalDate[|table|];
      }
    }
  }

  /** A tab-indented marker line strips to the marker, a blank and the value. */
  lemma StripMarkerLine(marker: string, value: string)
    requires marker != "" && !IsSpace(marker[0])
    requires value != "" && NoSpace(value)
    ensures Strip("\t" + (marker + " " + value)) == marker + " " + value
  {
    var line := marker + " " + value;
    StripLeading("\t", line);
    assert line[|line| - 1] == value[|value| - 1];
    StripClean(line);
  }

  /** The value of a marker line is the text after the marker and its blank. */
  lemma MarkerValueOf(marker: string, value: string)
    requires marker != "" && marker[|marker| - 1] == ':'
    requires value != "" && NoSpace(value) && ':' !in value
    ensures StartsWith(marker + " " + value, marker)
    ensures MarkerValue(marker + " " + value, marker) == value
  {
    MarkerLineParts(marker, value);
    MarkerFreeValue(marker, value);
    StripLeading(" ", value);
    StripClean(value);
  }

  lemma MarkerLineParts(marker: string, value: string)
    ensures StartsWith(marker + " " + value, marker) && (marker + " " + value)[|marker|..] == " " + value
  {
    var line := marker + " " + value;
    assert line == marker + (" " + value);
    assert line[..|marker|] == marker;
  }

  /** A blank and a colon-free value hold no marker ending in a colon. */
  lemma MarkerFreeValue(marker: string, value: string)
    requires marker != "" && marker[|marker| - 1] == ':' && ':' !in value
    ensures BeforeFirst(" " + value, marker) == " " + value
  {
    assert ':' !in " " + value by {
      assert forall c :: c in " " + value ==> c == ' ' || c in value;
    }
    AbsentChar(" " + value, marker, |marker| - 1);
    NotFound(" " + value, marker);
  }

  /** How a line whose stripped text starts with `fromColumn:` steps. */
  lemma FromLineStep(raw: string, from: string)
    requires StartsWith(Strip(raw), FromMarker)
    ensures RelationshipLine(raw, from) == Pending(MarkerValue(Strip(raw), FromMarker))
  {
  }

  /** How a line whose stripped text starts with `toColumn:` steps. */
  lemma ToLineStep(raw: string, from: string)
    requires !StartsWith(Strip(raw), FromMarker) && StartsWith(Strip(raw), ToMarker)
    ensures RelationshipLine(raw, from) == PairStep(from, MarkerValue(Strip(raw), ToMarker))
  {
  }

  /** The stripped text and the value of a `fromColumn:` line. */
  lemma FromLineText(fk: ForeignKey)
    requires IsReference(fk.fkTable, fk.fkColumn)
    ensures StartsWith(Strip(FromLine(fk)), FromMarker)
    ensures MarkerValue(Strip(FromLine(fk)), FromMarker) == Reference(fk.fkTable, fk.fkColumn)
  {
    var value := Reference(fk.fkTable, fk.fkColumn);
    ReferenceText(fk.fkTable, fk.fkColumn);
    StripMarkerLine(FromMarker, value);
    MarkerValueOf(FromMarker, value);
  }

  /** The stripped text and the value of a `toColumn:` line. */
  lemma ToLineText(fk: ForeignKey)
    requires IsReference(fk.refTable, fk.refColumn)
    ensures !StartsWith(Strip(ToLine(fk)), FromMarker) && StartsWith(Strip(ToLine(fk)), ToMarker)
    ensures MarkerValue(Strip(ToLine(fk)), ToMarker) == Reference(fk.refTable, fk.refColumn)
  {
    var value := Reference(fk.refTable, fk.refColumn);
    ReferenceText(fk.refTable, fk.refColumn);
    StripMarkerLine(ToMarker, value);
    MarkerValueOf(ToMarker, value);
    assert (ToMarker + " " + value)[0] != FromMarker[0];
  }

  /** A `fromColumn:` line makes its reference the pending one, whatever was pending. */
  lemma FromLineReads(fk: ForeignKey, from: string)
    requires IsReference(fk.fkTable, fk.fkColumn)
    ensures RelationshipLine(FromLine(fk), from) == Pending(Reference(fk.fkTable, fk.fkColumn))
  {
    FromLineText(fk);
    FromLineStep(FromLine(fk), from);
  }

  /** The pair of a model relationship's two references is that relationship. */
  lemma PairStepEmits(fk: ForeignKey)
    requires IsModelEdge(fk)
    ensures PairStep(Reference(fk.fkTable, fk.fkColumn), Reference(fk.refTable, fk.refColumn)) == Emit(fk)
  {
    ReferenceText(fk.fkTable, fk.fkColumn);
    ReferenceText(fk.refTable, fk.refColumn);
    NoLocalDateReference(fk.fkTable, fk.fkColumn);
    NoLocalDateReference(fk.refTable, fk.refColumn);
  }

  /** A `toColumn:` line after its `fromColumn:` line emits the relationship. */
  lemma ToLineEmits(fk: ForeignKey)
    requires IsModelEdge(fk)
    ensures RelationshipLine(ToLine(fk), Reference(fk.fkTable, fk.fkColumn)) == Emit(fk)
  {
    ToLineText(fk);
    ToLineStep(ToLine(fk), Reference(fk.fkTable, fk.fkColumn));
    PairStepEmits(fk);
  }

  /** With a reference pending, a `LocalDate` table on either side skips the pair and keeps the reference. */
  lemma PairStepLocalDate(from: string, to: string)
    requires from != "" && (StartsWith(from, LocalDate) || StartsWith(to, LocalDate))
    ensures PairStep(from, to) == Pending(from)
  {
  }

  /** A `toColumn:` line naming a `LocalDate` table emits nothing and keeps the pending reference. */
  lemma LocalDateLineKeepsPending(table: string, column: string, from: string)
    requires IsReference(table, column) && StartsWith(table, LocalDate)
    requires from != ""
    ensures RelationshipLine(ToLine(ForeignKey("", "", table, column)), from) == Pending(from)
  {
    var fk := ForeignKey("", "", table, column);
    ToLineText(fk);
    ToLineStep(ToLine(fk), from);
    ReferenceKeepsPrefix(table, column, LocalDate);
    PairStepLocalDate(from, Reference(table, column));
  }

  /** A line that sets the pending reference, then a line that completes the pair. */
  lemma ScanPair(lines: seq<string>, from: string, pending: string, e: ForeignKey)
    requires |lines| >= 2
    requires RelationshipLine(lines[0], from) == Pending(pending)
    requires RelationshipLine(lines[1], pending) == Emit(e)
    ensures ScanRelationships(lines, from)
            == ([e] + ScanRelationships(lines[2..], "").0, ScanRelationships(lines[2..], "").1)
  {
    ScanPending(lines, from, pending);
    assert lines[1..][0] == lines[1] && lines[1..][1..] == lines[2..];
    ScanEmit(lines[1..], pending, e);
  }

  /** The line pairs of model relationships yield exactly those relationships, in order. */
  lemma {:induction false} RelationshipRowsRoundTrip(fks: seq<ForeignKey>, from: string)
    requires forall e :: e in fks ==> IsModelEdge(e)
    ensures ScanRelationships(RelationshipRows(fks), from) == (fks, true)
  {
    if fks != [] {
      ModelEdgesTail(fks);
      RelationshipRowsStep(fks, from);
      RelationshipRowsRoundTrip(fks[1..], "");
    }
  }

  /** A non-empty list of model relationships is its first one before the rest, and the rest are model relationships too. */
  lemma ModelEdgesTail(fks: seq<ForeignKey>)
    requires fks != [] && forall e :: e in fks ==> IsModelEdge(e)
    ensures [fks[0]] + fks[1..] == fks
    ensures IsModelEdge(fks[0]) && forall e :: e in fks[1..] ==> IsModelEdge(e)
  {
    assert fks[0] in fks;
    forall e | e in fks[1..] ensures e in fks {
      var i :| 0 <= i < |fks[1..]| && fks[1..][i] == e;
      assert fks[i + 1] == e;
    }
  }

  /** The first line pair of the rows yields the first relationship; the scan then resumes with nothing pending. */
  lemma RelationshipRowsStep(fks: seq<ForeignKey>, from: string)
    requires fks != [] && IsModelEdge(fks[0])
    ensures ScanRelationships(RelationshipRows(fks), from)
            == ([fks[0]] + ScanRelationships(RelationshipRows(fks[1..]), "").0,
                ScanRelationships(RelationshipRows(fks[1..]), "").1)
  {
    var fk := fks[0];
    var rows := RelationshipRows(fks);
    assert rows[0] == FromLine(fk) && rows[1] == ToLine(fk) && rows[2..] == RelationshipRows(fks[1..]);
    FromLineReads(fk, from);
    ToLineEmits(fk);
    ScanPair(rows, from, Reference(fk.fkTable, fk.fkColumn), fk);
  }

  lemma {:induction false} RelationshipRowsNoBreak(fks: seq<ForeignKey>)
    requires forall e :: e in fks ==> IsModelEdge(e)
    ensures forall i :: 0 <= i < |RelationshipRows(fks)| ==> '\n' !in RelationshipRows(fks)[i]
  {
    if fks != [] {
      var fk := fks[0];
      assert fk in fks;
      ReferenceText(fk.fkTable, fk.fkColumn);
      ReferenceText(fk.refTable, fk.refColumn);
      assert IsSpace('\n');
      RelationshipRowsNoBreak(fks[1..]);
    }
  }

  /**
   * The relationship pass over a model whose first block holds the line
   * pairs of model relationships yields exactly those edges, whatever the
   * other blocks hold.
   */
  lemma RelationshipBlockRoundTrip(fks: seq<ForeignKey>, others: seq<string>)
    requires forall e :: e in fks ==> IsModelEdge(e)
    ensures RelationshipEdges([Join(RelationshipRows(fks), '\n')] + others) == (fks, true)
  {
    var rows := RelationshipRows(fks);
    if fks == [] {
      assert Split("", '\n') == [""];
      assert Strip("") == "";
      assert RelationshipLine("", "") == Pending("");
      ScanPending([""], "", "");
    } else {
      RelationshipRowsNoBreak(fks);
      JoinSplit(rows, '\n');
      RelationshipRowsRoundTrip(fks, "");
    }
  }

  /**
   * A `LocalDate` line between a `fromColumn:` line and a `toColumn:` line
   * emits nothing and leaves the pending reference in place, so the later
   * `toColumn:` line pairs with it.
   */
  lemma LocalDatePairKeepsPending(lines: seq<string>, fk: ForeignKey, table: string, column: string)
    requires IsModelEdge(fk)
    requires IsReference(table, column) && StartsWith(table, LocalDate)
    requires |lines| >= 3 && lines[0] == FromLine(fk) && lines[2] == ToLine(fk)
    requires lines[1] == ToLine(ForeignKey("", "", table, column))
    ensures ScanRelationships(lines, "")
            == ([fk] + ScanRelationships(lines[3..], "").0, ScanRelationships(lines[3..], "").1)
  {
    var from := Reference(fk.fkTable, fk.fkColumn);
    FromLineReads(fk, "");
    ReferenceText(fk.fkTable, fk.fkColumn);
    LocalDateLineKeepsPending(table, column, from);
    ToLineEmits(fk);
    ScanSkipPair(lines, from, fk);
  }

  /** A line that sets the pending reference, one that keeps it, and one that completes the pair. */
  lemma ScanSkipPair(lines: seq<string>, from: string, e: ForeignKey)
    requires |lines| >= 3
    requires RelationshipLine(lines[0], "") == Pending(from)
    requires RelationshipLine(lines[1], from) == Pending(from)
    requires RelationshipLine(lines[2], from) == Emit(e)
    ensures ScanRelationships(lines, "")
            == ([e] + ScanRelationships(lines[3..], "").0, ScanRelationships(lines[3..], "").1)
  {
    ScanPending(lines, "", from);
    ScanPair(lines[1..], from, from, e);
    assert lines[1..][2..] == lines[3..];
  }

  /** A pair that emits has tables that do not start with `LocalDate`. */
  lemma PairStepAvoidsLocalDate(from: string, to: string, e: ForeignKey)
    requires PairStep(from, to) == Emit(e)
    ensures !StartsWith(e.fkTable, LocalDate) && !StartsWith(e.refTable, LocalDate)
  {
    TableKeepsPrefix(from, LocalDate);
    TableKeepsPrefix(to, LocalDate);
  }

  /** A reference that unpacks starts with whatever its table part starts with. */
  lemma TableKeepsPrefix(ref: string, p: string)
    requires SplitReference(ref).Some?
    ensures StartsWith(SplitReference(ref).value.0, p) ==> StartsWith(ref, p)
  {
    SplitReferenceParts(ref);
    var x := SplitReference(ref).value;
    PrefixStays(x.0, "." + x.1, p);
    assert ref == x.0 + ("." + x.1);
  }

  /** An emitted edge never has a table that starts with `LocalDate`. */
  lemma EmitAvoidsLocalDate(raw: string, from: string, e: ForeignKey)
    requires RelationshipLine(raw, from) == Emit(e)
    ensures !StartsWith(e.fkTable, LocalDate) && !StartsWith(e.refTable, LocalDate)
  {
    var line := Strip(raw);
    assert !StartsWith(line, FromMarker) && StartsWith(line, ToMarker);
    PairStepAvoidsLocalDate(from, MarkerValue(line, ToMarker), e);
  }

  /** No edge of the relationship pass has a table that starts with `LocalDate`. */
  lemma {:induction false} EdgesAvoidLocalDate(lines: seq<string>, from: string)
    ensures forall e :: e in ScanRelationships(lines, from).0 ==>
              !StartsWith(e.fkTable, LocalDate) && !StartsWith(e.refTable, LocalDate)
  {
    if lines != [] {
      match RelationshipLine(lines[0], from) {
        case Pending(f) =>
          EdgesAvoidLocalDate(lines[1..], f);
        case ValueError =>
        case Emit(e) =>
          EmitAvoidsLocalDate(lines[0], from, e);
          EdgesAvoidLocalDate(lines[1..], "");
      }
    }
  }

  // ---------------------------------------------------------------------
  // A node label determines its table

  /** Searching from the end of `head`, the first `c` is the one right after a `c`-free `x`. */
  lemma FirstAfter(head: string, x: string, rest: string, c: char)
    requires c !in x && rest != [] && rest[0] == c
    ensures IndexOf(head + x + rest, [c], |head|) == |head| + |x|
  {
    var s := head + x + rest;
    OccursChar(s, c, |head| + |x|);
    forall j | |head| <= j < |head| + |x|
      ensures !OccursAt(s, [c], j)
    {
      OccursChar(s, c, j);
      assert s[j] == x[j - |head|];
    }
    IndexOfIs(s, [c], |head|, |head| + |x|);
  }

  /** Two texts that start with the rows of two quote-free columns start with the same row. */
  lemma RowPrefix(a: string, b: string, ra: string, rb: string)
    requires '"' !in a && '"' !in b
    requires Row(a) + ra == Row(b) + rb
    ensures a == b && ra == rb
  {
    var ta := RowMid + a + RowEnd + ra;
    var tb := RowMid + b + RowEnd + rb;
    Regroup(RowHead, a, RowMid, a, RowEnd + ra);
    Regroup(RowHead, b, RowMid, b, RowEnd + rb);
    RowTail(a, ra);
    RowTail(b, rb);
    SameHead(RowHead, a, b, ta, tb, '"');
    CancelPrefix(RowMid + a + RowEnd, ra, rb);
  }

  /** The part of a row after its column name starts with the closing quote. */
  lemma RowTail(a: string, ra: string)
    ensures Row(a) + ra == RowHead + a + RowMid + a + (RowEnd + ra)
    ensures RowMid + a + (RowEnd + ra) == RowMid + a + RowEnd + ra
    ensures (RowMid + a + RowEnd + ra) != [] && (RowMid + a + RowEnd + ra)[0] == '"'
  {
  }

  /** Behind a common head, a `c`-free word ended by `c` is recovered whole. */
  lemma SameHead(head: string, x: string, y: string, rx: string, ry: string, c: char)
    requires c !in x && c !in y
    requires rx != [] && rx[0] == c && ry != [] && ry[0] == c
    requires head + x + rx == head + y + ry
    ensures x == y && rx == ry
  {
    var s := head + x + rx;
    FirstAfter(head, x, rx, c);
    FirstAfter(head, y, ry, c);
    assert x == s[|head|..|head| + |x|];
    assert y == s[|head|..|head| + |y|];
    assert rx == s[|head| + |x|..] && ry == s[|head| + |y|..];
  }

  lemma Regroup(p: string, x: string, q: string, y: string, t: string)
    ensures p + x + q + y + t == p + x + (q + y + t)
  {
  }

  /** Equal texts with the same head and tail have the same middle. */
  lemma Between(head: string, x: string, y: string, tail: string)
    requires head + x + tail == head + y + tail
    ensures x == y
  {
    var s := head + x + tail;
    assert x == s[|head|..|s| - |tail|];
  }

  predicate QuoteFreeColumns(columns: seq<string>) {
    forall i :: 0 <= i < |columns| ==> '"' !in columns[i]
  }

  /** The rows of quote-free columns determine the columns, in order and with repeats. */
  lemma {:induction false} RowsInjective(a: seq<string>, b: seq<string>)
    requires QuoteFreeColumns(a) && QuoteFreeColumns(b)
    ensures Rows(a) == Rows(b) ==> a == b
  {
    if a != [] && b != [] && Rows(a) == Rows(b) {
      QuoteFreeTail(a);
      QuoteFreeTail(b);
      RowPrefix(a[0], b[0], Rows(a[1..]), Rows(b[1..]));
      RowsInjective(a[1..], b[1..]);
    } else if a == [] && b != [] {
      assert |Rows(b)| >= |Row(b[0])| > 0;
    } else if a != [] && b == [] {
      assert |Rows(a)| >= |Row(a[0])| > 0;
    }
  }

  lemma QuoteFreeTail(columns: seq<string>)
    requires columns != [] && QuoteFreeColumns(columns)
    ensures columns == [columns[0]] + columns[1..]
    ensures '"' !in columns[0] && QuoteFreeColumns(columns[1..])
  {
    forall i | 0 <= i < |columns[1..]| ensures '"' !in columns[1..][i] {
      assert columns[1..][i] == columns[i + 1];
    }
  }

  /**
   * The label of a table whose name holds no `<` and whose columns hold
   * no `"` determines the name and the column list: the header carries
   * the name and each row carries one column, in order.
   */
  lemma TableLabelInjective(n: string, a: seq<string>, m: string, b: seq<string>)
    requires '<' !in n && '<' !in m
    requires QuoteFreeColumns(a) && QuoteFreeColumns(b)
    ensures TableLabel(n, a) == TableLabel(m, b) ==> n == m && a == b
  {
    if TableLabel(n, a) == TableLabel(m, b) {
      var ra := LabelHeadEnd + Rows(a) + LabelTail;
      var rb := LabelHeadEnd + Rows(b) + LabelTail;
      Regroup(LabelHead, n, LabelHeadEnd, Rows(a), LabelTail);
      Regroup(LabelHead, m, LabelHeadEnd, Rows(b), LabelTail);
      SameHead(LabelHead, n, m, ra, rb, '<');
      Between(LabelHeadEnd, Rows(a), Rows(b), LabelTail);
      RowsInjective(a, b);
    }
  }
}
