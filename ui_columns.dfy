/** orderColumns, the column order the admin pages lay fields out in:
    the table definition's render settings are sorted by display index
    (in place; a missing list is replaced by an empty one), the members
    they name come first in that order, and every other member follows in
    key order unless a member of the same name is already placed. */
module UiColumns {
  import opened Wrappers
  import opened StableSort
  import opened AdminDataModel

  datatype RenderSetting = RenderSetting(columnName: string, displayIndex: int)

  function DisplayIndexOf(s: RenderSetting): int
  {
    s.displayIndex
  }

  /** sortByRenderSettings: the difference of the display indexes, so its
      sign orders the two settings by index. */
  function SortByRenderSettings(a: RenderSetting, b: RenderSetting): (r: int)
    ensures r < 0 <==> a.displayIndex < b.displayIndex
    ensures r == 0 <==> a.displayIndex == b.displayIndex
  {
    a.displayIndex - b.displayIndex
  }

  /** The render settings once the sort has run: stably sorted by display
      index (the sort of current engines is stable), and empty when the
      definition had none. */
  function SortedSettings(rendersettings: Option<seq<RenderSetting>>): (r: seq<RenderSetting>)
    ensures rendersettings.None? ==> r == []
    ensures rendersettings.Some? ==> multiset(r) == multiset(rendersettings.value)
  {
    if rendersettings.None? then [] else Sort(rendersettings.value, DisplayIndexOf)
  }

  /** The sorted settings are in display-index order, and settings of equal
      index keep their old relative order. */
  lemma SortedSettingsInIndexOrder(rendersettings: Option<seq<RenderSetting>>)
    ensures var r := SortedSettings(rendersettings);
      forall i, j :: 0 <= i < j < |r| ==> r[i].displayIndex <= r[j].displayIndex
    ensures rendersettings.Some? ==> forall k ::
      WithKey(SortedSettings(rendersettings), DisplayIndexOf, k) == WithKey(rendersettings.value, DisplayIndexOf, k)
  {
    if rendersettings.Some? {
      SortIsSorted(rendersettings.value, DisplayIndexOf);
      forall k
        ensures WithKey(SortedSettings(rendersettings), DisplayIndexOf, k) == WithKey(rendersettings.value, DisplayIndexOf, k)
      {
        SortIsStable(rendersettings.value, DisplayIndexOf, k);
      }
    }
  }

  /** The members the settings name, one slot per setting; None is the
      undefined the lookup gives for a name that is not a member key. */
  function Named(settings: seq<RenderSetting>, members: Members): (r: seq<Option<MemberDef>>)
    ensures |r| == |settings|
    ensures forall i :: 0 <= i < |settings| ==> r[i] == MemberAt(members, settings[i].columnName)
  {
    seq(|settings|, i requires 0 <= i < |settings| => MemberAt(members, settings[i].columnName))
  }

  /** Some placed member has this name. */
  predicate NameIn(ordered: seq<Option<MemberDef>>, name: string)
  {
    exists j :: 0 <= j < |ordered| && ordered[j].Some? && ordered[j].value.name == name
  }

  /** The members visited in key order, each appended unless a member of
      its name is already placed. */
  function AppendUnnamed(ordered: seq<Option<MemberDef>>, members: Members): (r: seq<Option<MemberDef>>)
    ensures |ordered| <= |r| <= |ordered| + |members|
    ensures r[..|ordered|] == ordered
    ensures forall j :: |ordered| <= j < |r| ==> r[j].Some?
    decreases |members|
  {
    if |members| == 0 then ordered
    else
      var n := |members| - 1;
      var acc := AppendUnnamed(ordered, members[..n]);
      if NameIn(acc, members[n].1.name) then acc else acc + [Some(members[n].1)]
  }

  datatype OrderError = ReadOfUndefined

  /** orderColumns on values: reading the name of an undefined slot throws,
      which happens as soon as a member is compared against the slots, so
      a setting naming no member is an error unless there are no members
      at all (then the undefined slots are returned). */
  function OrderedColumns(rendersettings: Option<seq<RenderSetting>>, members: Members): Result<seq<Option<MemberDef>>, OrderError>
  {
    var named := Named(SortedSettings(rendersettings), members);
    if |members| > 0 && None in named then Err(ReadOfUndefined)
    else Ok(AppendUnnamed(named, members))
  }

  lemma NameInSnoc(acc: seq<Option<MemberDef>>, m: MemberDef, name: string)
    ensures NameIn(acc + [Some(m)], name) <==> NameIn(acc, name) || m.name == name
  {
    var r := acc + [Some(m)];
    if NameIn(acc, name) {
      var j :| 0 <= j < |acc| && acc[j].Some? && acc[j].value.name == name;
      assert r[j] == acc[j];
    }
    if NameIn(r, name) && m.name != name {
      var j :| 0 <= j < |r| && r[j].Some? && r[j].value.name == name;
      assert j < |acc| && r[j] == acc[j];
    }
    if m.name == name {
      assert r[|acc|] == Some(m);
    }
  }

  /** A name is placed after the append exactly when it was placed before
      or some member has it. */
  lemma {:induction false} AppendUnnamedNames(ordered: seq<Option<MemberDef>>, members: Members, name: string)
    ensures NameIn(AppendUnnamed(ordered, members), name) <==>
      NameIn(ordered, name) || exists k :: 0 <= k < |members| && members[k].1.name == name
    decreases |members|
  {
    if |members| > 0 {
      var n := |members| - 1;
      var acc := AppendUnnamed(ordered, members[..n]);
      AppendUnnamedNames(ordered, members[..n], name);
      var earlier := exists k :: 0 <= k < n && members[k].1.name == name;
      if earlier {
        var k :| 0 <= k < n && members[k].1.name == name;
        assert members[..n][k] == members[k];
      }
      if exists k :: 0 <= k < n && members[..n][k].1.name == name {
        var k :| 0 <= k < n && members[..n][k].1.name == name;
        assert members[k] == members[..n][k];
      }
      if exists k :: 0 <= k < |members| && members[k].1.name == name {
        var k :| 0 <= k < |members| && members[k].1.name == name;
        assert k < n || members[n].1.name == name;
      }
      if !NameIn(acc, members[n].1.name) {
        NameInSnoc(acc, members[n].1, name);
      }
    }
  }

  /** Every member's name appears in a successful result. */
  lemma EveryMemberAppears(rendersettings: Option<seq<RenderSetting>>, members: Members, k: nat)
    requires k < |members|
    requires OrderedColumns(rendersettings, members).Ok?
    ensures NameIn(OrderedColumns(rendersettings, members).value, members[k].1.name)
  {
    AppendUnnamedNames(Named(SortedSettings(rendersettings), members), members, members[k].1.name);
  }

  /** A successful result starts with the named members, in ascending
      display index order. */
  lemma NamedComeFirst(rendersettings: Option<seq<RenderSetting>>, members: Members)
    requires OrderedColumns(rendersettings, members).Ok?
    ensures var r := OrderedColumns(rendersettings, members).value;
      var settings := SortedSettings(rendersettings);
      |settings| <= |r| &&
      (forall i :: 0 <= i < |settings| ==> r[i] == MemberAt(members, settings[i].columnName)) &&
      (forall i, j :: 0 <= i < j < |settings| ==> settings[i].displayIndex <= settings[j].displayIndex)
  {
    SortedSettingsInIndexOrder(rendersettings);
  }

  /** With no render settings the result is the members in key order,
      when member names are distinct. */
  lemma {:induction false} NoSettingsKeepsKeyOrder(members: Members)
    requires forall i, j :: 0 <= i < j < |members| ==> members[i].1.name != members[j].1.name
    ensures AppendUnnamed([], members) == seq(|members|, i requires 0 <= i < |members| => Some(members[i].1))
    decreases |members|
  {
    if |members| > 0 {
      var n := |members| - 1;
      NoSettingsKeepsKeyOrder(members[..n]);
      var acc := AppendUnnamed([], members[..n]);
      assert !NameIn(acc, members[n].1.name);
    }
  }

  lemma MissingSettingsGiveMembers(members: Members)
    requires forall i, j :: 0 <= i < j < |members| ==> members[i].1.name != members[j].1.name
    ensures OrderedColumns(None, members) == Ok(seq(|members|, i requires 0 <= i < |members| => Some(members[i].1)))
  {
    NoSettingsKeepsKeyOrder(members);
  }

  /** The members whose name no slot of ordered carries. */
  function CountUnnamed(ordered: seq<Option<MemberDef>>, members: Members): (r: nat)
    ensures r <= |members|
    decreases |members|
  {
    if |members| == 0 then 0
    else
      var n := |members| - 1;
      CountUnnamed(ordered, members[..n]) + (if NameIn(ordered, members[n].1.name) then 0 else 1)
  }

  lemma {:induction false} AppendUnnamedLength(ordered: seq<Option<MemberDef>>, members: Members)
    requires forall i, j :: 0 <= i < j < |members| ==> members[i].1.name != members[j].1.name
    ensures |AppendUnnamed(ordered, members)| == |ordered| + CountUnnamed(ordered, members)
    decreases |members|
  {
    if |members| > 0 {
      var n := |members| - 1;
      AppendUnnamedLength(ordered, members[..n]);
      AppendUnnamedNames(ordered, members[..n], members[n].1.name);
      assert !exists k :: 0 <= k < n && members[..n][k].1.name == members[n].1.name;
    }
  }

  /** When every setting names a member and member names are distinct, the
      result has one slot per setting plus one per member none of them
      names. */
  lemma OrderedLength(rendersettings: Option<seq<RenderSetting>>, members: Members)
    requires forall i, j :: 0 <= i < j < |members| ==> members[i].1.name != members[j].1.name
    requires forall s :: s in SortedSettings(rendersettings) ==> MemberAt(members, s.columnName).Some?
    ensures var named := Named(SortedSettings(rendersettings), members);
      OrderedColumns(rendersettings, members) == Ok(AppendUnnamed(named, members)) &&
      |AppendUnnamed(named, members)| == |SortedSettings(rendersettings)| + CountUnnamed(named, members)
  {
    var named := Named(SortedSettings(rendersettings), members);
    assert None !in named;
    AppendUnnamedLength(named, members);
  }

  /** The table definition orderColumns reads and sorts in place. */
  class TableDefinition {
    var rendersettings: Option<seq<RenderSetting>>
    var members: Members

    constructor (rendersettings: Option<seq<RenderSetting>>, members: Members)
      ensures this.rendersettings == rendersettings && this.members == members
    {
      this.rendersettings := rendersettings;
      this.members := members;
    }
  }

  /** The search for mem.name among the placed slots: reading the name of
      an undefined slot throws; otherwise whether the name is placed. */
  method FindName(ordered: seq<Option<MemberDef>>, name: string) returns (r: Result<bool, OrderError>)
    ensures None in ordered ==> r == Err(ReadOfUndefined)
    ensures None !in ordered ==> r == Ok(NameIn(ordered, name))
  {
    var found := false;
    for i := 0 to |ordered|
      invariant found <==> NameIn(ordered[..i], name)
      invariant None !in ordered[..i]
    {
      if ordered[i].None? {
        return Err(ReadOfUndefined);
      }
      NameInSnoc(ordered[..i], ordered[i].value, name);
      assert ordered[..i + 1] == ordered[..i] + [Some(ordered[i].value)];
      if name == ordered[i].value.name {
        found := true;
      }
    }
    assert ordered[..|ordered|] == ordered;
    return Ok(found);
  }

  /** orderColumns: sorts the definition's settings in place (or gives it
      an empty list), then builds the ordered member list. */
  method OrderColumns(tableDefinition: TableDefinition) returns (r: Result<seq<Option<MemberDef>>, OrderError>)
    modifies tableDefinition
    ensures tableDefinition.rendersettings == Some(SortedSettings(old(tableDefinition.rendersettings)))
    ensures tableDefinition.members == old(tableDefinition.members)
    ensures r == OrderedColumns(old(tableDefinition.rendersettings), tableDefinition.members)
  {
    if tableDefinition.rendersettings != None {
      tableDefinition.rendersettings := Some(Sort(tableDefinition.rendersettings.value, DisplayIndexOf));
    } else {
      tableDefinition.rendersettings := Some([]);
    }
    var settings := tableDefinition.rendersettings.value;
    var members := tableDefinition.members;
    ghost var named := Named(settings, members);
    var ordered := [];
    for i := 0 to |settings|
      invariant ordered == named[..i]
      invariant tableDefinition.rendersettings == Some(settings) && tableDefinition.members == members
    {
      ordered := ordered + [MemberAt(members, settings[i].columnName)];
    }
    assert named[..|settings|] == named;
    for x := 0 to |members|
      invariant ordered == AppendUnnamed(named, members[..x])
      invariant x > 0 ==> None !in named
      invariant tableDefinition.rendersettings == Some(settings) && tableDefinition.members == members
    {
      assert members[..x + 1][..x] == members[..x];
      var mem := members[x].1;
      var found := FindName(ordered, mem.name);
      if found.Err? {
        assert None in named by {
          assert ordered[..|named|] == named;
        }
        return Err(ReadOfUndefined);
      }
      if !found.value {
        ordered := ordered + [Some(mem)];
      }
    }
    assert members[..|members|] == members;
    return Ok(ordered);
  }
}
