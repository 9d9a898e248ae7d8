/** Inform8.generate up to the menu: the column labels (a HIDDEN label
    removes the column instead), then column properties, table labels and
    table properties are laid over the tables read from the database, and
    only then is the menu built, merged and ordered. The database read and
    the template generation that follows are not part of this model. */
module Inform8Generation {
  import opened Wrappers
  import opened Schema
  import opened Menus
  import opened Overlays

  /** A column-label record: a label equal to the HIDDEN label's text
      removes the column; any other label is added to it. */
  function FieldLabelOverlay(rec: (string, string, string), hidden: string): (r: Overlay)
    ensures rec.2 == hidden <==> r.HideColumn?
    ensures r.table == rec.0
  {
    if rec.2 == hidden then HideColumn(rec.0, rec.1) else ColumnLabel(rec.0, rec.1, rec.2)
  }

  function FieldLabelOverlays(cfg: OverlayConfig, hidden: string): (r: seq<Overlay>)
    ensures |r| == |cfg.tableFieldLabels|
    ensures forall i :: 0 <= i < |r| ==> r[i] == FieldLabelOverlay(cfg.tableFieldLabels[i], hidden)
  {
    var ls := cfg.tableFieldLabels;
    seq(|ls|, i requires 0 <= i < |ls| => FieldLabelOverlay(ls[i], hidden))
  }

  /** All overlay records in the order generate applies them. */
  function GenerateOverlays(cfg: OverlayConfig, hidden: string): seq<Overlay>
  {
    FieldLabelOverlays(cfg, hidden) + FieldPropertyOverlays(cfg) + TableLabelOverlays(cfg) + TablePropertyOverlays(cfg)
  }

  /** What generate produces before the templates: the overlaid tables and
      the merged, ordered menu; a record naming a missing table or column
      aborts the run. */
  function Generated(cfg: OverlayConfig, hidden: string, model: seq<Table>): Result<(seq<Table>, seq<MenuItem>), OverlayError>
  {
    var ts := ApplyAll(model, GenerateOverlays(cfg, hidden));
    if ts.Err? then Err(ts.error)
    else
      var initial := if cfg.menus.Some? then cfg.menus.value else [];
      Ok((ts.value, Ordered(Merged(initial, ts.value, cfg.adminIgnores), cfg.menusInOrder, 0)))
  }

  /** The overlays change no table's name or position, and after the
      merge every table that is not skipped is in the menu. */
  lemma GeneratedCoversTables(cfg: OverlayConfig, hidden: string, model: seq<Table>)
    ensures var g := Generated(cfg, hidden, model);
      g.Ok? ==>
        SameTableNames(model, g.value.0) &&
        forall t :: t in g.value.0 && !Skipped(t, cfg.adminIgnores) ==>
          InMenu(Merged(if cfg.menus.Some? then cfg.menus.value else [], g.value.0, cfg.adminIgnores), t.name)
  {
    ApplyAllKeepsNames(model, GenerateOverlays(cfg, hidden));
    var ts := ApplyAll(model, GenerateOverlays(cfg, hidden));
    if ts.Ok? {
      MergeCoversTables(if cfg.menus.Some? then cfg.menus.value else [], ts.value, cfg.adminIgnores);
    }
  }

  /** Table labels are laid on before the merge, so a table given the
      nomanager label by the configuration is skipped by the merge. */
  lemma {:induction false} NomanagerLabelSkipsMerge(cfg: OverlayConfig, hidden: string, model: seq<Table>, i: nat)
    requires i < |cfg.tableLabels| && cfg.tableLabels[i].1 == "nomanager"
    requires Generated(cfg, hidden, model).Ok?
    ensures var ts := Generated(cfg, hidden, model).value.0;
      TableIndex(ts, cfg.tableLabels[i].0).Some? &&
      Skipped(ts[TableIndex(ts, cfg.tableLabels[i].0).value], cfg.adminIgnores)
  {
    var os := GenerateOverlays(cfg, hidden);
    var n := |FieldLabelOverlays(cfg, hidden)| + |FieldPropertyOverlays(cfg)| + i;
    var name := cfg.tableLabels[i].0;
    TableLabelPosition(cfg, hidden, i);
    // The records before it succeed, the record itself labels the table,
    // and the records after it keep the label.
    ApplyAllThrough(model, os, n);
    var before := ApplyAll(model, os[..n]).value;
    var labelled := Apply(before, os[n]).value;
    var k := TableIndex(before, name).value;
    TableSettingsOverlaid(before, name, "nomanager", "", "");
    ApplyAllKeepsNames(labelled, os[n + 1..]);
    ApplyAllKeepsTableLabels(labelled, os[n + 1..], k, "nomanager");
    var ts := ApplyAll(labelled, os[n + 1..]).value;
    TableIndexSameNames(before, labelled, name);
    TableIndexSameNames(labelled, ts, name);
  }

  /** Where the i-th table label sits among all records. */
  lemma TableLabelPosition(cfg: OverlayConfig, hidden: string, i: nat)
    requires i < |cfg.tableLabels|
    ensures var n := |FieldLabelOverlays(cfg, hidden)| + |FieldPropertyOverlays(cfg)| + i;
      n < |GenerateOverlays(cfg, hidden)| &&
      GenerateOverlays(cfg, hidden)[n] == TableLabel(cfg.tableLabels[i].0, cfg.tableLabels[i].1)
  {
  }

  /** A property on a column that a hide record removed makes the run
      fail, when the hide comes first in the list the two run in. */
  lemma HiddenThenPropertyFails(tables: seq<Table>, table: string, column: string, key: string, value: string, hidden: string)
    requires TableIndex(tables, table).Some?
    requires var t := tables[TableIndex(tables, table).value];
      exists c :: 0 <= c < |t.columns| && t.columns[c].name == column &&
        forall j :: 0 <= j < |t.columns| && j != c ==> t.columns[j].name != column
    ensures ApplyAll(tables, [FieldLabelOverlay((table, column, hidden), hidden), ColumnProperty(table, column, key, value)]).Err?
  {
    HiddenColumnPropertyFails(tables, table, column, key, value);
    var os := [FieldLabelOverlay((table, column, hidden), hidden), ColumnProperty(table, column, key, value)];
    assert os[1..][1..] == [];
    var r := Apply(tables, os[0]);
    assert ApplyAll(tables, os) == ApplyAll(r.value, os[1..]);
  }

  class Inform8 {
    const generatorConfig: OverlayConfig
    /** The text of Label.HIDDEN, an enum not part of this model. */
    const hidden: string

    constructor (generatorConfig: OverlayConfig, hidden: string)
      ensures this.generatorConfig == generatorConfig && this.hidden == hidden
    {
      this.generatorConfig := generatorConfig;
      this.hidden := hidden;
    }

    /** generate, from the extracted model's tables to the ordered menu. */
    method Generate(model: seq<Table>) returns (r: Result<(seq<Table>, seq<MenuItem>), OverlayError>)
      ensures r == Generated(generatorConfig, hidden, model)
    {
      var tables := new TableList(model);
      var cfg := generatorConfig;
      var l1, l2, l3, l4 := FieldLabelOverlays(cfg, hidden), FieldPropertyOverlays(cfg), TableLabelOverlays(cfg), TablePropertyOverlays(cfg);
      assert GenerateOverlays(cfg, hidden) == l1 + (l2 + (l3 + l4));
      ApplyAllAppend(model, l1, l2 + (l3 + l4));
      var step := tables.ApplyOverlays(l1);
      if step.Err? {
        return Err(step.error);
      }
      ApplyAllAppend(tables.tables, l2, l3 + l4);
      step := tables.ApplyOverlays(l2);
      if step.Err? {
        return Err(step.error);
      }
      ApplyAllAppend(tables.tables, l3, l4);
      step := tables.ApplyOverlays(l3);
      if step.Err? {
        return Err(step.error);
      }
      step := tables.ApplyOverlays(l4);
      if step.Err? {
        return Err(step.error);
      }
      var siteMenu := new Menu(cfg.menus);
      siteMenu.Merge(tables.tables, cfg.adminIgnores);
      siteMenu.Order(cfg.menusInOrder);
      return Ok((tables.tables, siteMenu.menus));
    }
  }
}
