/** The PHP table definitions the generated site reads at run time: the
    display settings of a table member and of a table (a label list and a
    property map each), and a table holding its members by name. PHP
    arrays are ordered maps: a label list is a sequence, a property array
    a map, and the member array keeps its keys in insertion order. Label
    comparison is taken as string equality. */
module TableDef {
  import opened Wrappers

  /** True when some stored label equals lbl: the foreach search both
      hasLabel functions make. */
  method SearchLabels(labels: seq<string>, lbl: string) returns (b: bool)
    ensures b <==> lbl in labels
  {
    for i := 0 to |labels|
      invariant lbl !in labels[..i]
    {
      assert labels[..i + 1] == labels[..i] + [labels[i]];
      if lbl == labels[i] {
        return true;
      }
    }
    assert labels[..|labels|] == labels;
    return false;
  }

  /** TableMemberDisplaySettings. */
  class MemberDisplaySettings {
    var displayIndex: int
    var displayInGrid: bool
    var labels: seq<string>
    var properties: map<string, string>

    constructor (displayIndex: int, displayInGrid: bool, labels: seq<string>, properties: map<string, string>)
      ensures this.displayIndex == displayIndex && this.displayInGrid == displayInGrid
      ensures this.labels == labels && this.properties == properties
    {
      this.displayIndex := displayIndex;
      this.displayInGrid := displayInGrid;
      this.labels := labels;
      this.properties := properties;
    }

    /** addLabel: appends, keeping duplicates and the earlier labels. */
    method AddLabel(lbl: string)
      modifies this
      ensures labels == old(labels) + [lbl] && lbl in labels
      ensures properties == old(properties)
      ensures displayIndex == old(displayIndex) && displayInGrid == old(displayInGrid)
    {
      labels := labels + [lbl];
    }

    /** addProperty: sets the key, overwriting; other keys keep their values. */
    method AddProperty(key: string, value: string)
      modifies this
      ensures properties == old(properties)[key := value]
      ensures labels == old(labels)
      ensures displayIndex == old(displayIndex) && displayInGrid == old(displayInGrid)
    {
      properties := properties[key := value];
    }

    method HasLabel(lbl: string) returns (b: bool)
      ensures b <==> lbl in labels
    {
      b := SearchLabels(labels, lbl);
    }
  }

  /** TableDisplaySettings. */
  class TableDisplaySettings {
    var labels: seq<string>
    var properties: map<string, string>

    constructor (labels: seq<string>, properties: map<string, string>)
      ensures this.labels == labels && this.properties == properties
    {
      this.labels := labels;
      this.properties := properties;
    }

    method AddLabel(lbl: string)
      modifies this
      ensures labels == old(labels) + [lbl] && lbl in labels
      ensures properties == old(properties)
    {
      labels := labels + [lbl];
    }

    method AddProperty(key: string, prop: string)
      modifies this
      ensures properties == old(properties)[key := prop]
      ensures GetProperty(key) == Some(prop)
      ensures labels == old(labels)
    {
      properties := properties[key := prop];
    }

    /** getProperty: the stored value, or null (None) for a key never set. */
    function GetProperty(key: string): (r: Option<string>)
      reads this
      ensures r.Some? <==> key in properties
      ensures r.Some? ==> r.value == properties[key]
    {
      if key in properties then Some(properties[key]) else None
    }

    method HasLabel(lbl: string) returns (b: bool)
      ensures b <==> lbl in labels
    {
      b := SearchLabels(labels, lbl);
    }
  }

  /** A table member as the table stores it; its other fields are not
      part of this model. */
  datatype TableMember = TableMember(name: string, displayIndex: int)

  /** The values stored under names, in the order of names. */
  function Lookup(names: seq<string>, m: map<string, TableMember>): (r: seq<TableMember>)
    requires forall n :: n in names ==> n in m
    ensures |r| == |names|
    ensures forall i :: 0 <= i < |r| ==> r[i] == m[names[i]]
  {
    seq(|names|, i requires 0 <= i < |names| => m[names[i]])
  }

  /** Table: name, primary key, fk data field, display settings, and the
      members keyed by name in insertion order. */
  class Table {
    var name: string
    var primaryKey: string
    var fkDataField: Option<string>
    var displaySettings: TableDisplaySettings
    /** The keys of the member array, in insertion order. */
    var memberNames: seq<string>
    var members: map<string, TableMember>

    /** The member keys are distinct and are exactly the map's keys. */
    ghost predicate Valid()
      reads this
    {
      (forall i, j :: 0 <= i < j < |memberNames| ==> memberNames[i] != memberNames[j]) &&
      (forall n :: n in members <==> n in memberNames)
    }

    constructor (name: string, primaryKey: string, fkDataField: Option<string>, displaySettings: TableDisplaySettings)
      ensures Valid()
      ensures this.name == name && this.primaryKey == primaryKey
      ensures this.fkDataField == fkDataField && this.displaySettings == displaySettings
      ensures memberNames == [] && members == map[]
    {
      this.name := name;
      this.primaryKey := primaryKey;
      this.fkDataField := fkDataField;
      this.displaySettings := displaySettings;
      memberNames := [];
      members := map[];
    }

    /** addMember: stores the member under its name; a member of a name
        already present replaces it in place, so the count is unchanged. */
    method AddMember(member: TableMember)
      requires Valid()
      modifies this
      ensures Valid()
      ensures members == old(members)[member.name := member]
      ensures GetMember(member.name) == Some(member)
      ensures forall n :: n != member.name ==> GetMember(n) == old(GetMember(n))
      ensures memberNames == if member.name in old(members) then old(memberNames) else old(memberNames) + [member.name]
      ensures |memberNames| == |old(memberNames)| + (if member.name in old(members) then 0 else 1)
      ensures name == old(name) && primaryKey == old(primaryKey)
      ensures fkDataField == old(fkDataField) && displaySettings == old(displaySettings)
    {
      if member.name !in members {
        memberNames := memberNames + [member.name];
      }
      members := members[member.name := member];
    }

    /** getMember: the member last added under that name, or null. */
    function GetMember(memberName: string): (r: Option<TableMember>)
      reads this
      ensures r.Some? <==> memberName in members
      ensures r.Some? ==> r.value == members[memberName]
    {
      if memberName in members then Some(members[memberName]) else None
    }

    /** getMembers: the members in insertion order of their names. */
    function GetMembers(): (r: seq<TableMember>)
      requires Valid()
      reads this
      ensures |r| == |memberNames|
      ensures forall i :: 0 <= i < |r| ==> r[i] == members[memberNames[i]] && r[i] in members.Values
    {
      Lookup(memberNames, members)
    }
  }
}
