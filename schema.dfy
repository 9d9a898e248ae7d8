/** The schema model the generator builds and the overlays decorate: the
    parts of Inform8Table, Inform8Column, their settings block, the
    foreign-key links and the compiled render plan that the core reads or
    writes. The classes themselves are not part of this model; what they
    are assumed to do is stated at each definition. */
module Schema {
  import opened Wrappers
  import opened JavaText

  /** A settings block: the labels added so far, in order and with
      duplicates, and the key/value properties. */
  datatype Settings = Settings(labels: seq<string>, properties: map<string, string>)

  const EmptySettings := Settings([], map[])

  predicate HasLabel(st: Settings, lbl: string)
  {
    lbl in st.labels
  }

  function AddLabel(st: Settings, lbl: string): (r: Settings)
    ensures r.labels == st.labels + [lbl] && r.properties == st.properties
    ensures HasLabel(r, lbl)
    ensures forall l :: HasLabel(st, l) ==> HasLabel(r, l)
  {
    st.(labels := st.labels + [lbl])
  }

  function AddProperty(st: Settings, key: string, value: string): (r: Settings)
    ensures r.labels == st.labels
    ensures key in r.properties && r.properties[key] == value
    ensures forall k :: k != key ==> (k in r.properties <==> k in st.properties)
    ensures forall k :: k != key && k in st.properties ==> r.properties[k] == st.properties[k]
  {
    st.(properties := st.properties[key := value])
  }

  /** One directed view of a foreign-key link, naming its tables. The base
      side is the table the view is attached to; baseIsMaster says whether
      that side is the referenced (master) one. */
  datatype ForeignKey = ForeignKey(baseTable: string, baseColumn: string,
                                   otherTable: string, otherColumn: string,
                                   baseIsMaster: bool)

  /** getMasterTable: the referenced side of the link. */
  function MasterTable(fk: ForeignKey): string
  {
    if fk.baseIsMaster then fk.baseTable else fk.otherTable
  }

  /** A column. childFk is the link in which this column is the detail
      (referencing) side, if any. */
  datatype Column = Column(name: string, dataType: string, settings: Settings,
                           displayInGrid: bool, childFk: Option<ForeignKey>)

  /** The three render elements of a compiled display string. A column the
      table does not have is held as None, as Java holds null. */
  datatype RenderElement =
    | PlainString(text: string)
    | Member(column: Option<Column>)
    | FkMember(fkColumn: Column, otherColumn: Option<Column>)

  /** A table: its columns in declaration order, the name of its primary
      key, its settings and links, and the values the overlays set. */
  datatype Table = Table(name: string, columns: seq<Column>, primaryKey: string,
                         settings: Settings, foreignKeys: seq<ForeignKey>,
                         fkDataMember: Option<string>, parentChildMember: Option<string>,
                         orderDisplay: Option<seq<RenderElement>>)

  /** The position of the first column named exactly `name`. */
  function ColumnIndex(t: Table, name: string): (r: Option<nat>)
    ensures r.Some? ==> r.value < |t.columns| && t.columns[r.value].name == name
    ensures r.Some? ==> forall j :: 0 <= j < r.value ==> t.columns[j].name != name
    ensures r.None? ==> forall j :: 0 <= j < |t.columns| ==> t.columns[j].name != name
  {
    ColumnIndexFrom(t.columns, name, 0)
  }

  function ColumnIndexFrom(cols: seq<Column>, name: string, i: nat): (r: Option<nat>)
    requires i <= |cols|
    ensures r.Some? ==> i <= r.value < |cols| && cols[r.value].name == name
    ensures r.Some? ==> forall j :: i <= j < r.value ==> cols[j].name != name
    ensures r.None? ==> forall j :: i <= j < |cols| ==> cols[j].name != name
    decreases |cols| - i
  {
    if i == |cols| then None
    else if cols[i].name == name then Some(i)
    else ColumnIndexFrom(cols, name, i + 1)
  }

  /** Stands in for Inform8Table.getColumn, whose body is not part of this
      model. It is assumed to return the first column named exactly `name`,
      or null (None) when the table has none. */
  function GetColumn(t: Table, name: string): (r: Option<Column>)
    ensures r.Some? <==> exists j :: 0 <= j < |t.columns| && t.columns[j].name == name
    ensures r.Some? ==> r.value in t.columns && r.value.name == name
  {
    var k := ColumnIndex(t, name);
    if k.Some? then Some(t.columns[k.value]) else None
  }

  /** The first table whose name equals `name` ignoring case: findTable. */
  function TableIndex(tables: seq<Table>, name: string): (r: Option<nat>)
    ensures r.Some? ==> r.value < |tables| && EqualsIgnoreCase(tables[r.value].name, name)
    ensures r.Some? ==> forall j :: 0 <= j < r.value ==> !EqualsIgnoreCase(tables[j].name, name)
    ensures r.None? ==> forall j :: 0 <= j < |tables| ==> !EqualsIgnoreCase(tables[j].name, name)
  {
    TableIndexFrom(tables, name, 0)
  }

  function TableIndexFrom(tables: seq<Table>, name: string, i: nat): (r: Option<nat>)
    requires i <= |tables|
    ensures r.Some? ==> i <= r.value < |tables| && EqualsIgnoreCase(tables[r.value].name, name)
    ensures r.Some? ==> forall j :: i <= j < r.value ==> !EqualsIgnoreCase(tables[j].name, name)
    ensures r.None? ==> forall j :: i <= j < |tables| ==> !EqualsIgnoreCase(tables[j].name, name)
    decreases |tables| - i
  {
    if i == |tables| then None
    else if EqualsIgnoreCase(tables[i].name, name) then Some(i)
    else TableIndexFrom(tables, name, i + 1)
  }

  /** findTable as the loop both generators write: a first-match search
      on the name ignoring case that yields null (None) when nothing
      matches. */
  method FindTable(name: string, tables: seq<Table>) returns (r: Option<nat>)
    ensures r.Some? ==> r.value < |tables| && EqualsIgnoreCase(tables[r.value].name, name)
    ensures r.Some? ==> forall j :: 0 <= j < r.value ==> !EqualsIgnoreCase(tables[j].name, name)
    ensures r.None? ==> forall j :: 0 <= j < |tables| ==> !EqualsIgnoreCase(tables[j].name, name)
    ensures r == TableIndex(tables, name)
  {
    var i := 0;
    while i < |tables|
      invariant 0 <= i <= |tables|
      invariant forall j :: 0 <= j < i ==> !EqualsIgnoreCase(tables[j].name, name)
    {
      if EqualsIgnoreCase(tables[i].name, name) {
        return Some(i);
      }
      i := i + 1;
    }
    return None;
  }
}
