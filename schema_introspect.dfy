/** `get_schema_description`: one line per table the database's inspector
    lists, `Table <name>: ` followed by the table's columns as
    `<name> (<type>)` separated by ", ", the lines joined by line breaks.
    The inspector is an input: the table names in the order it returns
    them, and the columns it returns for each name, in their order. */
module SchemaIntrospect {
  import opened Strings

  /** A column as `get_columns` reports it; `typeName` is the text its
      declared type renders to. */
  datatype Column = Column(name: string, typeName: string)

  /** What the inspector of a live database answers at request time. */
  datatype Inspector = Inspector(tableNames: seq<string>, columnsOf: string -> seq<Column>)

  /** `f"{c['name']} ({c['type']})"`. */
  function ColumnText(c: Column): string
  {
    c.name + " (" + c.typeName + ")"
  }

  /** The list `col_strs`, one text per column, in column order. */
  function ColumnTexts(cols: seq<Column>): (texts: seq<string>)
    ensures |texts| == |cols|
    ensures forall k :: 0 <= k < |cols| ==> texts[k] == ColumnText(cols[k])
  {
    seq(|cols|, k requires 0 <= k < |cols| => ColumnText(cols[k]))
  }

  /** The line appended for one table. */
  function TableLine(name: string, cols: seq<Column>): string
  {
    "Table " + name + ": " + Join(", ", ColumnTexts(cols))
  }

  /** The list `lines` once every table has been visited: one line per
      table name, in the inspector's order. */
  function Lines(names: seq<string>, columnsOf: string -> seq<Column>): (lines: seq<string>)
    ensures |lines| == |names|
    ensures forall k :: 0 <= k < |names| ==> lines[k] == TableLine(names[k], columnsOf(names[k]))
  {
    seq(|names|, k requires 0 <= k < |names| => TableLine(names[k], columnsOf(names[k])))
  }

  /** The description `get_schema_description` returns. */
  function Describe(inspector: Inspector): string
  {
    Join("\n", Lines(inspector.tableNames, inspector.columnsOf))
  }

  /** The loop of `get_schema_description`: visits the table names in
      order, appends each table's line to `lines`, and joins the lines at
      the end. */
  method GetSchemaDescription(inspector: Inspector) returns (desc: string)
    ensures desc == Describe(inspector)
  {
    var names := inspector.tableNames;
    var lines: seq<string> := [];
    for i := 0 to |names|
      invariant lines == Lines(names[..i], inspector.columnsOf)
    {
      var tableName := names[i];
      var cols := inspector.columnsOf(tableName);
      var colStrs := ColumnTexts(cols);
      lines := lines + ["Table " + tableName + ": " + Join(", ", colStrs)];
    }
    assert names[..|names|] == names;
    desc := Join("\n", lines);
  }

  // ---------------------------------------------------------------------------
  // What the description says

  /** A database without tables is described by the empty string. */
  lemma NoTablesNoDescription(inspector: Inspector)
    requires inspector.tableNames == []
    ensures Describe(inspector) == ""
  {
  }

  /** A table without columns renders as its name and a colon. */
  lemma TableWithoutColumns(name: string)
    ensures TableLine(name, []) == "Table " + name + ": "
  {
    assert "Table " + name + ": " + [] == "Table " + name + ": ";
  }

  /** A table line names its table first and then holds every column's
      text. */
  lemma TableLineListsColumns(name: string, cols: seq<Column>, k: nat)
    requires k < |cols|
    ensures "Table " + name + ": " <= TableLine(name, cols)
    ensures IsInfix(ColumnText(cols[k]), TableLine(name, cols))
  {
    var prefix := "Table " + name + ": ";
    var texts := ColumnTexts(cols);
    JoinHasPart(", ", texts, k);
    InfixOfConcat(prefix, Join(", ", texts), []);
    assert prefix + Join(", ", texts) + [] == TableLine(name, cols);
    InfixTransitive(texts[k], Join(", ", texts), TableLine(name, cols));
  }

  /** No line break appears in a table's line when none appears in the
      names and types it prints. */
  lemma TableLineIsOneLine(name: string, cols: seq<Column>)
    requires '\n' !in name
    requires forall k :: 0 <= k < |cols| ==> '\n' !in cols[k].name && '\n' !in cols[k].typeName
    ensures '\n' !in TableLine(name, cols)
  {
    var texts := ColumnTexts(cols);
    forall k | 0 <= k < |texts|
      ensures '\n' !in texts[k]
    {
      assert texts[k] == cols[k].name + " (" + cols[k].typeName + ")";
    }
    JoinAvoids(", ", texts, '\n');
  }

  /** When no table name, column name or type holds a line break, a
      database with at least one table is described by exactly one line
      per table, in the inspector's order: splitting the description at
      line breaks gives the tables' lines back. */
  lemma OneLinePerTable(inspector: Inspector)
    requires inspector.tableNames != []
    requires forall t :: t in inspector.tableNames ==> '\n' !in t
    requires forall t, c :: t in inspector.tableNames && c in inspector.columnsOf(t) ==>
               '\n' !in c.name && '\n' !in c.typeName
    ensures Split(Describe(inspector), '\n') == Lines(inspector.tableNames, inspector.columnsOf)
  {
    var names := inspector.tableNames;
    var lines := Lines(names, inspector.columnsOf);
    forall k | 0 <= k < |lines|
      ensures '\n' !in lines[k]
    {
      var cols := inspector.columnsOf(names[k]);
      assert names[k] in names;
      forall j | 0 <= j < |cols|
        ensures '\n' !in cols[j].name && '\n' !in cols[j].typeName
      {
        assert cols[j] in cols;
      }
      TableLineIsOneLine(names[k], cols);
    }
    SplitJoin(lines, '\n');
  }
}
