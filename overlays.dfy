/** The configuration overlays both generators lay over the parsed tables:
    each record names a table (found by findTable, ignoring case) and
    changes that table, or one of its columns, in place. A record naming a
    table or column that is not there dereferences null in the source and
    aborts the run; here it is an error value. */
module Overlays {
  import opened Wrappers
  import opened JavaText
  import opened Schema
  import opened DisplayParser
  import opened Menus

  /** The data type an HTML-editor record gives its column. */
  const HTML_EDITOR := "htmleditor"

  /** One configuration record. */
  datatype Overlay =
    | FkDataMember(table: string, column: string)
    | HtmlEditor(table: string, column: string)
    | OrderDisplay(table: string, display: string)
    | ParentChild(table: string, column: string)
    | ColumnLabel(table: string, column: string, lbl: string)
    | ColumnProperty(table: string, column: string, key: string, value: string)
    | TableLabel(table: string, lbl: string)
    | TableProperty(table: string, key: string, value: string)
    | HideColumn(table: string, column: string)
    | HideInList(table: string, column: string)

  datatype OverlayError =
    | UnknownTable(name: string)
    | UnknownColumn(tableName: string, columnName: string)
    | BadDisplay(error: ParseError)

  /** The lists the generator configuration hands the overlay loops, in
      their iteration order, with the menu settings merge and order read. */
  datatype OverlayConfig = OverlayConfig(
    tableFkColumns: seq<(string, string)>,
    tableHtmlColumns: seq<(string, string)>,
    tableOrderDisplayColumns: seq<(string, string)>,
    tableParentChildColumns: seq<(string, string)>,
    tableFieldLabels: seq<(string, string, string)>,
    tableFieldProperties: seq<(string, string, string, string)>,
    tableLabels: seq<(string, string)>,
    tableProperties: seq<(string, string, string)>,
    hiddenListColumns: seq<(string, string)>,
    menus: Option<seq<MenuItem>>,
    menusInOrder: seq<string>,
    adminIgnores: seq<string>)

  /** The column-property records as overlays, in order: table, column,
      then the property's key (getLabel) and value (getProperty). */
  function FieldPropertyOverlays(cfg: OverlayConfig): (r: seq<Overlay>)
    ensures |r| == |cfg.tableFieldProperties|
    ensures forall i :: 0 <= i < |r| ==>
      var p := cfg.tableFieldProperties[i];
      r[i] == ColumnProperty(p.0, p.1, p.2, p.3)
  {
    var ps := cfg.tableFieldProperties;
    seq(|ps|, i requires 0 <= i < |ps| => ColumnProperty(ps[i].0, ps[i].1, ps[i].2, ps[i].3))
  }

  /** The table-label records as overlays, in order. */
  function TableLabelOverlays(cfg: OverlayConfig): (r: seq<Overlay>)
    ensures |r| == |cfg.tableLabels|
    ensures forall i :: 0 <= i < |r| ==> r[i] == TableLabel(cfg.tableLabels[i].0, cfg.tableLabels[i].1)
  {
    var ls := cfg.tableLabels;
    seq(|ls|, i requires 0 <= i < |ls| => TableLabel(ls[i].0, ls[i].1))
  }

  /** The table-property records as overlays, in order: table, key, value. */
  function TablePropertyOverlays(cfg: OverlayConfig): (r: seq<Overlay>)
    ensures |r| == |cfg.tableProperties|
    ensures forall i :: 0 <= i < |r| ==>
      var p := cfg.tableProperties[i];
      r[i] == TableProperty(p.0, p.1, p.2)
  {
    var ps := cfg.tableProperties;
    seq(|ps|, i requires 0 <= i < |ps| => TableProperty(ps[i].0, ps[i].1, ps[i].2))
  }

  /** The tables have the same names, in the same order. */
  predicate SameTableNames(a: seq<Table>, b: seq<Table>)
  {
    |a| == |b| && forall i :: 0 <= i < |a| ==> a[i].name == b[i].name
  }

  /** Replacing a table by one of the same name leaves every findTable
      answer as it was. */
  lemma {:induction false} TableIndexFromSameNames(a: seq<Table>, b: seq<Table>, name: string, i: nat)
    requires SameTableNames(a, b) && i <= |a|
    ensures TableIndexFrom(a, name, i) == TableIndexFrom(b, name, i)
    decreases |a| - i
  {
    if i < |a| {
      TableIndexFromSameNames(a, b, name, i + 1);
    }
  }

  lemma TableIndexSameNames(a: seq<Table>, b: seq<Table>, name: string)
    requires SameTableNames(a, b)
    ensures TableIndex(a, name) == TableIndex(b, name)
  {
    TableIndexFromSameNames(a, b, name, 0);
  }

  /** The column list without the column at position k (List.remove). */
  function RemoveAt(cols: seq<Column>, k: nat): (r: seq<Column>)
    requires k < |cols|
    ensures |r| == |cols| - 1
    ensures forall j :: 0 <= j < k ==> r[j] == cols[j]
    ensures forall j :: k <= j < |r| ==> r[j] == cols[j + 1]
  {
    cols[..k] + cols[k + 1..]
  }

  /** The change one record makes to the table it names. */
  function ApplyToTable(t: Table, o: Overlay, schema: seq<Table>): (r: Result<Table, OverlayError>)
    ensures r.Ok? ==> r.value.name == t.name
    ensures r.Ok? ==> forall l :: HasLabel(t.settings, l) ==> HasLabel(r.value.settings, l)
  {
    match o
    case FkDataMember(_, column) => Ok(t.(fkDataMember := Some(column)))
    case HtmlEditor(_, column) =>
      var k := ColumnIndex(t, column);
      if k.None? then Ok(t)
      else Ok(t.(columns := t.columns[k.value := t.columns[k.value].(dataType := HTML_EDITOR)]))
    case OrderDisplay(_, display) =>
      var plan := ParseFrom(t, schema, display);
      if plan.Err? then Err(BadDisplay(plan.error)) else Ok(t.(orderDisplay := Some(plan.value)))
    case ParentChild(_, column) => Ok(t.(parentChildMember := Some(column)))
    case ColumnLabel(_, column, lbl) =>
      var k := ColumnIndex(t, column);
      if k.None? then Err(UnknownColumn(t.name, column))
      else
        var c := t.columns[k.value];
        Ok(t.(columns := t.columns[k.value := c.(settings := AddLabel(c.settings, lbl))]))
    case ColumnProperty(_, column, key, value) =>
      var k := ColumnIndex(t, column);
      if k.None? then Err(UnknownColumn(t.name, column))
      else
        var c := t.columns[k.value];
        Ok(t.(columns := t.columns[k.value := c.(settings := AddProperty(c.settings, key, value))]))
    case TableLabel(_, lbl) => Ok(t.(settings := AddLabel(t.settings, lbl)))
    case TableProperty(_, key, value) => Ok(t.(settings := AddProperty(t.settings, key, value)))
    case HideColumn(_, column) =>
      var k := ColumnIndex(t, column);
      if k.None? then Ok(t) else Ok(t.(columns := RemoveAt(t.columns, k.value)))
    case HideInList(_, column) =>
      var k := ColumnIndex(t, column);
      if k.None? then Err(UnknownColumn(t.name, column))
      else Ok(t.(columns := t.columns[k.value := t.columns[k.value].(displayInGrid := false)]))
  }

  /** One record: find its table, then change it. */
  function Apply(tables: seq<Table>, o: Overlay): (r: Result<seq<Table>, OverlayError>)
    ensures TableIndex(tables, o.table).None? ==> r == Err(UnknownTable(o.table))
    ensures r.Ok? ==> SameTableNames(tables, r.value)
    ensures r.Ok? ==> forall i, l :: 0 <= i < |tables| && HasLabel(tables[i].settings, l) ==> HasLabel(r.value[i].settings, l)
  {
    var k := TableIndex(tables, o.table);
    if k.None? then Err(UnknownTable(o.table))
    else
      var t := ApplyToTable(tables[k.value], o, tables);
      if t.Err? then Err(t.error) else Ok(tables[k.value := t.value])
  }

  /** The records in turn; the first failure ends the run. */
  function ApplyAll(tables: seq<Table>, os: seq<Overlay>): (r: Result<seq<Table>, OverlayError>)
    decreases |os|
  {
    if os == [] then Ok(tables)
    else
      var first := Apply(tables, os[0]);
      if first.Err? then Err(first.error) else ApplyAll(first.value, os[1..])
  }

  /** The tables keep their names and order through any run of records. */
  lemma {:induction false} ApplyAllKeepsNames(tables: seq<Table>, os: seq<Overlay>)
    ensures ApplyAll(tables, os).Ok? ==> SameTableNames(tables, ApplyAll(tables, os).value)
    decreases |os|
  {
    if os != [] {
      var first := Apply(tables, os[0]);
      if first.Ok? {
        ApplyAllKeepsNames(first.value, os[1..]);
      }
    }
  }

  /** Table labels are never taken away: a label a table carries before
      a run of records it still carries after it. */
  lemma {:induction false} ApplyAllKeepsTableLabels(tables: seq<Table>, os: seq<Overlay>, i: nat, l: string)
    requires i < |tables| && HasLabel(tables[i].settings, l)
    ensures ApplyAll(tables, os).Ok? ==> i < |ApplyAll(tables, os).value| && HasLabel(ApplyAll(tables, os).value[i].settings, l)
    decreases |os|
  {
    ApplyAllKeepsNames(tables, os);
    if os != [] {
      var first := Apply(tables, os[0]);
      if first.Ok? {
        ApplyAllKeepsTableLabels(first.value, os[1..], i, l);
      }
    }
  }

  /** Running two lists one after the other is running their
      concatenation: the fixed order of the overlay loops. */
  lemma {:induction false} ApplyAllAppend(tables: seq<Table>, a: seq<Overlay>, b: seq<Overlay>)
    ensures ApplyAll(tables, a + b)
         == if ApplyAll(tables, a).Err? then ApplyAll(tables, a) else ApplyAll(ApplyAll(tables, a).value, b)
    decreases |a|
  {
    if a == [] {
      assert a + b == b;
    } else {
      assert (a + b)[0] == a[0] && (a + b)[1..] == a[1..] + b;
      var first := Apply(tables, a[0]);
      if first.Ok? {
        ApplyAllAppend(first.value, a[1..], b);
      }
    }
  }

  /** A run that succeeds passes through each of its records: the records
      before position n succeed, record n succeeds on their result, and
      the rest of the run starts from there. */
  lemma ApplyAllThrough(tables: seq<Table>, os: seq<Overlay>, n: nat)
    requires n < |os| && ApplyAll(tables, os).Ok?
    ensures var before := ApplyAll(tables, os[..n]);
      before.Ok? && Apply(before.value, os[n]).Ok? &&
      ApplyAll(Apply(before.value, os[n]).value, os[n + 1..]) == ApplyAll(tables, os)
  {
    assert os == os[..n] + os[n..];
    ApplyAllAppend(tables, os[..n], os[n..]);
    assert os[n..][0] == os[n] && os[n..][1..] == os[n + 1..];
  }

  /** A column label is added to the first column of that name of the
      first table of that name, and to nothing else; a missing column is
      an error. */
  lemma ColumnLabelAdded(tables: seq<Table>, table: string, column: string, lbl: string)
    requires TableIndex(tables, table).Some?
    ensures var k := TableIndex(tables, table).value;
      var r := Apply(tables, ColumnLabel(table, column, lbl));
      (ColumnIndex(tables[k], column).None? <==> r == Err(UnknownColumn(tables[k].name, column))) &&
      (ColumnIndex(tables[k], column).Some? ==>
        var c := ColumnIndex(tables[k], column).value;
        r.Ok? && r.value == tables[k := tables[k].(columns := tables[k].columns[c := tables[k].columns[c].(settings := AddLabel(tables[k].columns[c].settings, lbl))])] &&
        HasLabel(r.value[k].columns[c].settings, lbl))
  {
  }

  /** A hidden column leaves its table; the other columns keep their
      order; a hide naming no column changes nothing. */
  lemma HideRemovesColumn(tables: seq<Table>, table: string, column: string)
    requires TableIndex(tables, table).Some?
    ensures var k := TableIndex(tables, table).value;
      var r := Apply(tables, HideColumn(table, column));
      r.Ok? &&
      (ColumnIndex(tables[k], column).None? ==> r.value == tables) &&
      (ColumnIndex(tables[k], column).Some? ==>
        var c := ColumnIndex(tables[k], column).value;
        r.value[k].columns == tables[k].columns[..c] + tables[k].columns[c + 1..])
  {
  }

  /** A property on a column that an earlier hide removed fails, when the
      table had one column of that name. */
  lemma HiddenColumnPropertyFails(tables: seq<Table>, table: string, column: string, key: string, value: string)
    requires TableIndex(tables, table).Some?
    requires var t := tables[TableIndex(tables, table).value];
      exists c :: 0 <= c < |t.columns| && t.columns[c].name == column &&
        forall j :: 0 <= j < |t.columns| && j != c ==> t.columns[j].name != column
    ensures var r := Apply(tables, HideColumn(table, column));
      r.Ok? && Apply(r.value, ColumnProperty(table, column, key, value)).Err?
  {
    var k := TableIndex(tables, table).value;
    var t := tables[k];
    var c := ColumnIndex(t, column).value;
    var r := Apply(tables, HideColumn(table, column)).value;
    TableIndexSameNames(tables, r, table);
    var cols := RemoveAt(t.columns, c);
    assert r[k].columns == cols;
    forall j | 0 <= j < |cols|
      ensures cols[j].name != column
    {
      if j >= c {
        assert cols[j] == t.columns[j + 1];
      }
    }
  }

  /** A hidden-list record only clears displayInGrid: the column stays,
      and nothing else about the table changes. */
  lemma HideInListKeepsColumn(tables: seq<Table>, table: string, column: string)
    requires TableIndex(tables, table).Some?
    ensures var k := TableIndex(tables, table).value;
      var r := Apply(tables, HideInList(table, column));
      (ColumnIndex(tables[k], column).None? <==> r == Err(UnknownColumn(tables[k].name, column))) &&
      (ColumnIndex(tables[k], column).Some? ==>
        var c := ColumnIndex(tables[k], column).value;
        r.Ok? && |r.value[k].columns| == |tables[k].columns| &&
        r.value[k].columns[c] == tables[k].columns[c].(displayInGrid := false) &&
        (forall j :: 0 <= j < |tables[k].columns| && j != c ==> r.value[k].columns[j] == tables[k].columns[j]))
  {
  }

  /** Table labels and properties go into the settings of the first table
      of that name. */
  lemma TableSettingsOverlaid(tables: seq<Table>, table: string, lbl: string, key: string, value: string)
    requires TableIndex(tables, table).Some?
    ensures var k := TableIndex(tables, table).value;
      var r1 := Apply(tables, TableLabel(table, lbl));
      var r2 := Apply(tables, TableProperty(table, key, value));
      r1.Ok? && r1.value == tables[k := tables[k].(settings := AddLabel(tables[k].settings, lbl))] &&
      r2.Ok? && r2.value == tables[k := tables[k].(settings := AddProperty(tables[k].settings, key, value))]
  {
  }

  /** A run of records fails exactly at its first record whose table is
      missing, when every earlier record succeeds. */
  lemma {:induction false} UnknownTableFailsRun(tables: seq<Table>, os: seq<Overlay>, i: nat)
    requires i < |os| && TableIndex(tables, os[i].table).None?
    requires ApplyAll(tables, os[..i]).Ok?
    ensures ApplyAll(tables, os) == Err(UnknownTable(os[i].table))
  {
    ApplyAllKeepsNames(tables, os[..i]);
    TableIndexSameNames(tables, ApplyAll(tables, os[..i]).value, os[i].table);
    assert os == os[..i] + os[i..];
    ApplyAllAppend(tables, os[..i], os[i..]);
    assert os[i..][0] == os[i];
  }

  /** The overlaid tables: the list the loops change in place. */
  class TableList {
    var tables: seq<Table>

    constructor (tables: seq<Table>)
      ensures this.tables == tables
    {
      this.tables := tables;
    }

    /** findTable. */
    method Find(name: string) returns (r: Option<nat>)
      ensures r == TableIndex(tables, name)
    {
      r := FindTable(name, tables);
    }

    /** One overlay loop: the records in turn; on an error the run stops
        (the generator aborts, so the tables left behind are not used). */
    method ApplyOverlays(os: seq<Overlay>) returns (r: Result<bool, OverlayError>)
      modifies this
      ensures ApplyAll(old(tables), os).Err? <==> r.Err?
      ensures r.Err? ==> r.error == ApplyAll(old(tables), os).error
      ensures r.Ok? ==> tables == ApplyAll(old(tables), os).value
    {
      for i := 0 to |os|
        invariant ApplyAll(old(tables), os) == ApplyAll(tables, os[i..])
      {
        assert os[i..][0] == os[i] && os[i..][1..] == os[i + 1..];
        var k := Find(os[i].table);
        if k.None? {
          return Err(UnknownTable(os[i].table));
        }
        var t := ApplyToTable(tables[k.value], os[i], tables);
        if t.Err? {
          return Err(t.error);
        }
        tables := tables[k.value := t.value];
      }
      assert os[|os|..] == [];
      return Ok(true);
    }
  }
}
