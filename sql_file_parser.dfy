/** PlusSqlFileParser.generate up to the language files: the SQL text is
    split into statements, each CREATE TABLE statement is parsed into a
    table, the foreign keys are attached to both of their tables, the
    configuration overlays run in their fixed order, the menu is merged and
    ordered, and the tables missing an fk data member are reported.
    Reading the SQL file, the table and foreign-key parsers, the link's
    opposite(), the primary key's detail-link test, template merging and
    file output are not part of this model: the parsers, opposite() and
    the detail-link test are parameters. */
module SqlFileParser {
  import opened Wrappers
  import opened JavaText
  import opened Schema
  import opened Menus
  import opened Overlays

  const CREATE_TABLE := "create table"

  /** The statement text from the first "create table" (in any case) on,
      or None when the statement has none. */
  function CreateTableFragment(statement: string): (r: Option<string>)
    ensures r.Some? <==> IndexOfString(ToLower(statement), CREATE_TABLE) >= 0
    ensures r.Some? ==> LowerStartsWith(r.value, CREATE_TABLE)
    ensures r.Some? ==> exists i :: 0 <= i <= |statement| && r.value == statement[i..]
    ensures r.Some? ==> forall j :: 0 <= j < |statement| - |r.value| ==> !LowerStartsWith(statement[j..], CREATE_TABLE)
  {
    var i := IndexOfString(ToLower(statement), CREATE_TABLE);
    if i < 0 then None
    else
      NoEarlierPhrase(statement, i);
      LowerStartsWithAt(statement, CREATE_TABLE, i);
      Some(statement[i..])
  }

  /** No position before the first occurrence in the lower-case text
      starts the phrase. */
  lemma NoEarlierPhrase(statement: string, i: int)
    requires i == IndexOfString(ToLower(statement), CREATE_TABLE) && i >= 0
    ensures forall j :: 0 <= j < i ==> !LowerStartsWith(statement[j..], CREATE_TABLE)
  {
    forall j | 0 <= j < i
      ensures !LowerStartsWith(statement[j..], CREATE_TABLE)
    {
      LowerStartsWithAt(statement, CREATE_TABLE, j);
    }
  }

  /** The CREATE TABLE fragments of the statements, in statement order. */
  function Fragments(statements: seq<string>): (r: seq<string>)
    ensures |r| <= |statements|
    ensures forall k :: 0 <= k < |r| ==> LowerStartsWith(r[k], CREATE_TABLE)
  {
    if statements == [] then []
    else
      var f := CreateTableFragment(statements[|statements| - 1]);
      Fragments(statements[..|statements| - 1]) + (if f.Some? then [f.value] else [])
  }

  function FragmentOf(statement: string): seq<string>
  {
    var f := CreateTableFragment(statement);
    if f.Some? then [f.value] else []
  }

  /** The fragments keep statement order: those of a concatenation are the
      concatenated fragments, and one statement gives its own fragment,
      or none when it lacks the phrase. */
  lemma {:induction false} FragmentsInOrder(a: seq<string>, b: seq<string>)
    ensures Fragments(a + b) == Fragments(a) + Fragments(b)
    ensures forall s :: Fragments([s]) == FragmentOf(s)
    decreases |b|
  {
    if b != [] {
      var init := b[..|b| - 1];
      assert (a + b)[..|a + b| - 1] == a + init;
      assert (a + b)[|a + b| - 1] == b[|b| - 1];
      FragmentsInOrder(a, init);
    } else {
      assert a + b == a;
    }
    forall s
      ensures Fragments([s]) == FragmentOf(s)
    {
      assert [s][..0] == [];
    }
  }

  /** A statement yields a fragment exactly when it contains the phrase:
      the fragments count the statements that contain it. */
  function CountCreates(statements: seq<string>): nat
  {
    if statements == [] then 0
    else
      CountCreates(statements[..|statements| - 1]) +
      (if IndexOfString(ToLower(statements[|statements| - 1]), CREATE_TABLE) >= 0 then 1 else 0)
  }

  lemma {:induction false} FragmentsCountCreates(statements: seq<string>)
    ensures |Fragments(statements)| == CountCreates(statements)
  {
    if statements != [] {
      FragmentsCountCreates(statements[..|statements| - 1]);
    }
  }

  /** The split knows nothing of quotes: a ';' inside a quoted default
      value still ends the statement. */
  lemma SplitIgnoresQuotes()
    ensures JavaSplit("x';'y", ';') == ["x'", "'y"]
  {
    var s := "x';'y";
    assert s == "x'" + [';'] + "'y";
    SplitAllAfter("x'", ';', "'y");
    SplitAllAbsent("'y", ';');
  }

  /** The link attached to its base table and opposite(link) to its other
      table. The Java reaches both tables through the link's object
      references; here tables are values, so the link names them and both
      are looked up by name as findTable looks them up. */
  function AttachKey(tables: seq<Table>, fk: ForeignKey, opposite: ForeignKey -> ForeignKey): (r: Result<seq<Table>, OverlayError>)
    ensures r.Ok? ==> SameTableNames(tables, r.value)
    ensures TableIndex(tables, fk.baseTable).None? ==> r == Err(UnknownTable(fk.baseTable))
    ensures TableIndex(tables, fk.otherTable).None? && TableIndex(tables, fk.baseTable).Some? ==>
      r == Err(UnknownTable(fk.otherTable))
  {
    var b := TableIndex(tables, fk.baseTable);
    if b.None? then Err(UnknownTable(fk.baseTable))
    else
      var withBase := tables[b.value := tables[b.value].(foreignKeys := tables[b.value].foreignKeys + [fk])];
      TableIndexSameNames(tables, withBase, fk.otherTable);
      var o := TableIndex(withBase, fk.otherTable);
      if o.None? then Err(UnknownTable(fk.otherTable))
      else Ok(withBase[o.value := withBase[o.value].(foreignKeys := withBase[o.value].foreignKeys + [opposite(fk)])])
  }

  /** Both sides see the link: the base table ends with it and the other
      table ends with opposite(link) (a link of a table to itself leaves
      both on that table, the link first). */
  lemma AttachKeyBothSides(tables: seq<Table>, fk: ForeignKey, opposite: ForeignKey -> ForeignKey)
    requires TableIndex(tables, fk.baseTable).Some? && TableIndex(tables, fk.otherTable).Some?
    ensures var r := AttachKey(tables, fk, opposite);
      var b := TableIndex(tables, fk.baseTable).value;
      var o := TableIndex(tables, fk.otherTable).value;
      r.Ok? &&
      (b != o ==> r.value[b].foreignKeys == tables[b].foreignKeys + [fk] &&
                  r.value[o].foreignKeys == tables[o].foreignKeys + [opposite(fk)]) &&
      (b == o ==> r.value[b].foreignKeys == tables[b].foreignKeys + [fk, opposite(fk)]) &&
      (forall j :: 0 <= j < |tables| && j != b && j != o ==> r.value[j] == tables[j])
  {
    var b := TableIndex(tables, fk.baseTable).value;
    var withBase := tables[b := tables[b].(foreignKeys := tables[b].foreignKeys + [fk])];
    TableIndexSameNames(tables, withBase, fk.otherTable);
  }

  function AttachAll(tables: seq<Table>, fks: seq<ForeignKey>, opposite: ForeignKey -> ForeignKey): (r: Result<seq<Table>, OverlayError>)
    ensures r.Ok? ==> SameTableNames(tables, r.value)
    decreases |fks|
  {
    if fks == [] then Ok(tables)
    else
      var first := AttachKey(tables, fks[0], opposite);
      if first.Err? then Err(first.error) else AttachAll(first.value, fks[1..], opposite)
  }

  /** The overlay records in the fixed order generate runs them: fk data
      member, HTML editor, order display, parent/child, column labels,
      column properties, table labels, table properties, hidden list
      columns. */
  function SqlOverlays(cfg: OverlayConfig): (r: seq<Overlay>)
    ensures |r| == |cfg.tableFkColumns| + |cfg.tableHtmlColumns| + |cfg.tableOrderDisplayColumns| +
      |cfg.tableParentChildColumns| + |cfg.tableFieldLabels| + |cfg.tableFieldProperties| +
      |cfg.tableLabels| + |cfg.tableProperties| + |cfg.hiddenListColumns|
  {
    var fk := cfg.tableFkColumns;
    var html := cfg.tableHtmlColumns;
    var ord := cfg.tableOrderDisplayColumns;
    var pc := cfg.tableParentChildColumns;
    var fl := cfg.tableFieldLabels;
    var hl := cfg.hiddenListColumns;
    seq(|fk|, i requires 0 <= i < |fk| => FkDataMember(fk[i].0, fk[i].1)) +
    seq(|html|, i requires 0 <= i < |html| => HtmlEditor(html[i].0, html[i].1)) +
    seq(|ord|, i requires 0 <= i < |ord| => OrderDisplay(ord[i].0, ord[i].1)) +
    seq(|pc|, i requires 0 <= i < |pc| => ParentChild(pc[i].0, pc[i].1)) +
    seq(|fl|, i requires 0 <= i < |fl| => ColumnLabel(fl[i].0, fl[i].1, fl[i].2)) +
    FieldPropertyOverlays(cfg) + TableLabelOverlays(cfg) + TablePropertyOverlays(cfg) +
    seq(|hl|, i requires 0 <= i < |hl| => HideInList(hl[i].0, hl[i].1))
  }

  /** hasDetailKeys(t) stands for !t.getPrimaryKey().getDetailForeignKeys().isEmpty(). */
  predicate NeedsFkDataMember(t: Table, hasDetailKeys: Table -> bool)
  {
    hasDetailKeys(t) && t.fkDataMember.None?
  }

  /** The names the "missing fk data member" warning prints, in table
      order: exactly the tables with detail links and no fk data member. */
  function MissingFkDataMember(tables: seq<Table>, hasDetailKeys: Table -> bool): (r: seq<string>)
    ensures forall n :: n in r <==> exists j :: 0 <= j < |tables| && tables[j].name == n && NeedsFkDataMember(tables[j], hasDetailKeys)
  {
    if tables == [] then []
    else
      var init := tables[..|tables| - 1];
      var last := tables[|tables| - 1];
      assert forall j :: 0 <= j < |init| ==> init[j] == tables[j];
      MissingFkDataMember(init, hasDetailKeys) + (if NeedsFkDataMember(last, hasDetailKeys) then [last.name] else [])
  }

  /** The tables of the CREATE TABLE statements, in order. */
  function ParsedTables(fragments: seq<string>, parseTable: string -> Table): (r: seq<Table>)
    ensures |r| == |fragments|
    ensures forall k :: 0 <= k < |r| ==> r[k] == parseTable(fragments[k])
  {
    if fragments == [] then []
    else ParsedTables(fragments[..|fragments| - 1], parseTable) + [parseTable(fragments[|fragments| - 1])]
  }

  /** One statement more: its fragment, if any, parsed and appended. */
  lemma ParsedTablesStep(split: seq<string>, i: nat, parseTable: string -> Table)
    requires i < |split|
    ensures var at := IndexOfString(ToLower(split[i]), CREATE_TABLE);
      ParsedTables(Fragments(split[..i + 1]), parseTable) ==
      ParsedTables(Fragments(split[..i]), parseTable) + (if at >= 0 then [parseTable(split[i][at..])] else [])
  {
    assert split[..i + 1] == split[..i] + [split[i]];
    FragmentsInOrder(split[..i], [split[i]]);
    var f := FragmentOf(split[i]);
    var prefix := Fragments(split[..i]);
    assert (prefix + f)[..|prefix|] == prefix;
  }

  datatype Output = Output(tables: seq<Table>, menus: seq<MenuItem>, warnings: seq<string>)

  /** The collaborators generate calls whose code is not part of this
      model: new TableParser(fragment).parseTable(), new
      ForeignKeyParser(tables).splitAlterTables(sql), the link's opposite(),
      and the test !table.getPrimaryKey().getDetailForeignKeys().isEmpty(). */
  datatype Collaborators = Collaborators(parseTable: string -> Table,
                                         splitAlterTables: (seq<Table>, string) -> seq<ForeignKey>,
                                         opposite: ForeignKey -> ForeignKey,
                                         hasDetailKeys: Table -> bool)

  /** What generate produces: the parsed, linked and overlaid tables, the
      merged and ordered menu, and the warnings. */
  function GeneratedFromSql(cfg: OverlayConfig, co: Collaborators, sql: string): Result<Output, OverlayError>
  {
    var tables := ParsedTables(Fragments(JavaSplit(sql, ';')), co.parseTable);
    var linked := AttachAll(tables, co.splitAlterTables(tables, sql), co.opposite);
    if linked.Err? then Err(linked.error)
    else
      var overlaid := ApplyAll(linked.value, SqlOverlays(cfg));
      if overlaid.Err? then Err(overlaid.error)
      else Ok(Finished(cfg, overlaid.value, co.hasDetailKeys))
  }

  /** The output once the tables are overlaid: the configured menu merged
      with them and ordered, and the warnings. */
  function Finished(cfg: OverlayConfig, tables: seq<Table>, hasDetailKeys: Table -> bool): Output
  {
    var initial := if cfg.menus.Some? then cfg.menus.value else [];
    Output(tables, Ordered(Merged(initial, tables, cfg.adminIgnores), cfg.menusInOrder, 0), MissingFkDataMember(tables, hasDetailKeys))
  }

  /** The overlays keep the table list of the statements: one table per
      CREATE TABLE statement, in statement order. */
  lemma GeneratedKeepsStatementTables(cfg: OverlayConfig, co: Collaborators, sql: string)
    ensures var g := GeneratedFromSql(cfg, co, sql);
      var fragments := Fragments(JavaSplit(sql, ';'));
      g.Ok? ==>
        |g.value.tables| == |fragments| &&
        forall k :: 0 <= k < |fragments| ==> g.value.tables[k].name == co.parseTable(fragments[k]).name
  {
    var tables := ParsedTables(Fragments(JavaSplit(sql, ';')), co.parseTable);
    var linked := AttachAll(tables, co.splitAlterTables(tables, sql), co.opposite);
    if linked.Ok? {
      ApplyAllKeepsNames(linked.value, SqlOverlays(cfg));
    }
  }

  class PlusSqlFileParser {
    const generatorConfig: OverlayConfig
    const collaborators: Collaborators

    constructor (generatorConfig: OverlayConfig, collaborators: Collaborators)
      ensures this.generatorConfig == generatorConfig && this.collaborators == collaborators
    {
      this.generatorConfig := generatorConfig;
      this.collaborators := collaborators;
    }

    /** The table list: one parsed table per statement containing
        "create table", parsed from that phrase on. */
    method ReadTables(sql: string) returns (tables: seq<Table>)
      ensures tables == ParsedTables(Fragments(JavaSplit(sql, ';')), collaborators.parseTable)
    {
      var split := JavaSplit(sql, ';');
      tables := [];
      for i := 0 to |split|
        invariant tables == ParsedTables(Fragments(split[..i]), collaborators.parseTable)
      {
        ParsedTablesStep(split, i, collaborators.parseTable);
        var lower := ToLower(split[i]);
        var at := IndexOfString(lower, CREATE_TABLE);
        if at >= 0 {
          tables := tables + [collaborators.parseTable(split[i][at..])];
        }
      }
      assert split[..|split|] == split;
    }

    /** Each link is added to its base table, and opposite(link) to its
        other table. */
    method AttachForeignKeys(tables: seq<Table>, fks: seq<ForeignKey>) returns (r: Result<seq<Table>, OverlayError>)
      ensures r == AttachAll(tables, fks, collaborators.opposite)
    {
      var current := tables;
      for i := 0 to |fks|
        invariant AttachAll(tables, fks, collaborators.opposite) == AttachAll(current, fks[i..], collaborators.opposite)
      {
        assert fks[i..][0] == fks[i] && fks[i..][1..] == fks[i + 1..];
        var fk := fks[i];
        var b := FindTable(fk.baseTable, current);
        if b.None? {
          return Err(UnknownTable(fk.baseTable));
        }
        current := current[b.value := current[b.value].(foreignKeys := current[b.value].foreignKeys + [fk])];
        var o := FindTable(fk.otherTable, current);
        if o.None? {
          return Err(UnknownTable(fk.otherTable));
        }
        current := current[o.value := current[o.value].(foreignKeys := current[o.value].foreignKeys + [collaborators.opposite(fk)])];
      }
      assert fks[|fks|..] == [];
      return Ok(current);
    }

    /** The closing "Generation Warnings" loop. */
    method Warnings(tables: seq<Table>) returns (names: seq<string>)
      ensures names == MissingFkDataMember(tables, collaborators.hasDetailKeys)
    {
      names := [];
      for i := 0 to |tables|
        invariant names == MissingFkDataMember(tables[..i], collaborators.hasDetailKeys)
      {
        assert tables[..i + 1][..i] == tables[..i];
        if NeedsFkDataMember(tables[i], collaborators.hasDetailKeys) {
          names := names + [tables[i].name];
        }
      }
      assert tables[..|tables|] == tables;
    }

    /** generate, from the SQL text to the menu and the warnings. */
    method Generate(sql: string) returns (r: Result<Output, OverlayError>)
      ensures r == GeneratedFromSql(generatorConfig, collaborators, sql)
    {
      var tables := ReadTables(sql);
      var fks := collaborators.splitAlterTables(tables, sql);
      var linked := AttachForeignKeys(tables, fks);
      if linked.Err? {
        return Err(linked.error);
      }
      var list := new TableList(linked.value);
      var step := list.ApplyOverlays(SqlOverlays(generatorConfig));
      if step.Err? {
        return Err(step.error);
      }
      var output := Finish(list.tables);
      return Ok(output);
    }

    /** The menu built from the configuration, merged with the tables and
        ordered, then the warnings. */
    method Finish(tables: seq<Table>) returns (output: Output)
      ensures output == Finished(generatorConfig, tables, collaborators.hasDetailKeys)
    {
      var siteMenu := new Menu(generatorConfig.menus);
      siteMenu.Merge(tables, generatorConfig.adminIgnores);
      siteMenu.Order(generatorConfig.menusInOrder);
      var warnings := Warnings(tables);
      return Output(tables, siteMenu.menus, warnings);
    }
  }
}
