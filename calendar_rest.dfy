/** The calendar feed: for each requested table that carries the
    'calendar' label, the members labelled calendar-start, -end,
    -complete, -description and -title say which record fields make up an
    entry, and every record of the table becomes one calendar entry. The
    table definitions, the data access objects and the link builder are
    parameters; reading a record field is a map lookup. */
module CalendarRest {
  import opened Wrappers
  import opened JavaText

  /** A PHP value read from a record. */
  datatype PhpValue = Null | Str(s: string) | Int(i: int) | Bool(b: bool)

  /** PHP truthiness. */
  predicate Truthy(v: PhpValue)
  {
    match v
    case Null => false
    case Str(s) => s != "" && s != "0"
    case Int(i) => i != 0
    case Bool(b) => b
  }

  /** v == NULL under loose comparison: null, the empty string, 0 and
      false. */
  predicate LooselyNull(v: PhpValue)
  {
    v == Null || v == Str("") || v == Int(0) || v == Bool(false)
  }

  /** A value as the '.' operator converts it to text. */
  function AsText(v: PhpValue): string
  {
    match v
    case Null => ""
    case Str(s) => s
    case Int(i) => Decimal(i)
    case Bool(b) => if b then "1" else ""
  }

  datatype CalMember = CalMember(name: string, labels: seq<string>)

  /** A table definition: the table's name and labels and its members in
      order. */
  datatype CalTableDef = CalTableDef(name: string, labels: seq<string>, members: seq<CalMember>)

  /** A record: its primary key and its field values; an absent field
      reads as null. */
  datatype Record = Record(pk: PhpValue, fields: map<string, PhpValue>)

  function Get(obj: Record, field: string): PhpValue
  {
    if field in obj.fields then obj.fields[field] else Null
  }

  /** What the data access object's getAll returns. */
  datatype DbRows = NoRows | Failed | Rows(records: seq<Record>)

  datatype Role = StartRole | EndRole | CompleteRole | DescriptionRole | TitleRole | NoRole

  /** The one role a member takes: the first of start, end, complete,
      description and title whose label it carries. */
  function RoleOf(m: CalMember): Role
  {
    if "calendar-start" in m.labels then StartRole
    else if "calendar-end" in m.labels then EndRole
    else if "calendar-complete" in m.labels then CompleteRole
    else if "calendar-description" in m.labels then DescriptionRole
    else if "calendar-title" in m.labels then TitleRole
    else NoRole
  }

  /** Each role is taken exactly when its label is there and no label
      earlier in the order is; a member with none of the five labels takes
      no role. */
  lemma RoleOfLabels(m: CalMember)
    ensures var r := RoleOf(m);
      (r == StartRole <==> "calendar-start" in m.labels) &&
      (r == EndRole <==> "calendar-end" in m.labels && "calendar-start" !in m.labels) &&
      (r == CompleteRole <==> "calendar-complete" in m.labels && "calendar-start" !in m.labels && "calendar-end" !in m.labels) &&
      (r == DescriptionRole <==> ("calendar-description" in m.labels && "calendar-start" !in m.labels &&
                                  "calendar-end" !in m.labels && "calendar-complete" !in m.labels)) &&
      (r == NoRole <==> forall l :: l in m.labels ==>
        l != "calendar-start" && l != "calendar-end" && l != "calendar-complete" && l != "calendar-description" && l != "calendar-title")
  {
  }

  /** The field names chosen for each part of an entry. */
  datatype Roles = Roles(start: string, title: string, end: Option<string>, complete: Option<string>, description: Option<string>)

  const NO_ROLES := Roles("", "", None, None, None)

  function Assign(roles: Roles, m: CalMember): Roles
  {
    match RoleOf(m)
    case StartRole => roles.(start := m.name)
    case EndRole => roles.(end := Some(m.name))
    case CompleteRole => roles.(complete := Some(m.name))
    case DescriptionRole => roles.(description := Some(m.name))
    case TitleRole => roles.(title := m.name)
    case NoRole => roles
  }

  /** The roles after visiting the members in order. */
  function RolesOf(members: seq<CalMember>): Roles
    decreases |members|
  {
    if |members| == 0 then NO_ROLES
    else Assign(RolesOf(members[..|members| - 1]), members[|members| - 1])
  }

  /** The name of the last member taking the role, if any. */
  function LastWithRole(members: seq<CalMember>, role: Role): Option<string>
    decreases |members|
  {
    if |members| == 0 then None
    else
      var n := |members| - 1;
      if RoleOf(members[n]) == role then Some(members[n].name)
      else LastWithRole(members[..n], role)
  }

  /** There is no result exactly when no member takes the role. */
  lemma {:induction false} LastWithRoleAbsent(members: seq<CalMember>, role: Role)
    ensures LastWithRole(members, role).None? <==> forall i :: 0 <= i < |members| ==> RoleOf(members[i]) != role
    decreases |members|
  {
    if |members| > 0 {
      var n := |members| - 1;
      if RoleOf(members[n]) != role {
        var prefix := members[..n];
        LastWithRoleAbsent(prefix, role);
        assert forall i :: 0 <= i < n ==> members[i] == prefix[i];
      }
    }
  }

  /** A result is the name of a member taking the role after which no
      member takes it. */
  lemma {:induction false} LastWithRoleFound(members: seq<CalMember>, role: Role)
    ensures var r := LastWithRole(members, role);
      r.Some? ==> exists i :: 0 <= i < |members| && RoleOf(members[i]) == role && members[i].name == r.value &&
                              forall j :: i < j < |members| ==> RoleOf(members[j]) != role
    decreases |members|
  {
    if |members| > 0 {
      var n := |members| - 1;
      var prefix := members[..n];
      var r := LastWithRole(prefix, role);
      if RoleOf(members[n]) != role && r.Some? {
        LastWithRoleFound(prefix, role);
        var i :| 0 <= i < |prefix| && RoleOf(prefix[i]) == role && prefix[i].name == r.value &&
                 forall j :: i < j < |prefix| ==> RoleOf(prefix[j]) != role;
        assert members[i] == prefix[i];
        forall j | i < j < |members|
          ensures RoleOf(members[j]) != role
        {
          if j < n {
            assert members[j] == prefix[j];
          }
        }
      }
    }
  }

  lemma LastWithRoleStep(members: seq<CalMember>, role: Role)
    requires |members| > 0
    ensures LastWithRole(members, role) ==
      if RoleOf(members[|members| - 1]) == role then Some(members[|members| - 1].name)
      else LastWithRole(members[..|members| - 1], role)
  {
  }

  /** Each field name is the name of the last member taking that role:
      a later member overwrites an earlier one, and a role no member takes
      keeps its initial value. */
  lemma {:induction false} RolesAreLastMembers(members: seq<CalMember>)
    ensures var roles := RolesOf(members);
      roles.start == (var l := LastWithRole(members, StartRole); if l.Some? then l.value else "") &&
      roles.title == (var l := LastWithRole(members, TitleRole); if l.Some? then l.value else "") &&
      roles.end == LastWithRole(members, EndRole) &&
      roles.complete == LastWithRole(members, CompleteRole) &&
      roles.description == LastWithRole(members, DescriptionRole)
    decreases |members|
  {
    if |members| > 0 {
      var n := |members| - 1;
      var prefix := members[..n];
      RolesAreLastMembers(prefix);
      LastWithRoleStep(members, StartRole);
      LastWithRoleStep(members, TitleRole);
      LastWithRoleStep(members, EndRole);
      LastWithRoleStep(members, CompleteRole);
      LastWithRoleStep(members, DescriptionRole);
      assert RolesOf(members) == Assign(RolesOf(prefix), members[n]);
    }
  }

  /** A field name taking part: set and not loosely equal to null (so not
      empty). */
  predicate Present(field: Option<string>)
  {
    field.Some? && field.value != ""
  }

  /** One calendar entry; end and description may be absent. */
  datatype Entry = Entry(id: PhpValue, title: PhpValue, start: PhpValue, url: string,
                         end: Option<PhpValue>, description: Option<PhpValue>, className: string)

  /** The entry built from one record of a calendar table. */
  function MakeEntry(table: string, defName: string, roles: Roles, obj: Record, url: (string, PhpValue) -> string): (r: Entry)
    ensures r.id == obj.pk && r.start == Get(obj, roles.start) && r.url == url(table, obj.pk)
    ensures r.end.Some? <==> Present(roles.end)
    ensures r.end.Some? ==> r.end.value == Get(obj, roles.end.value)
    ensures !Present(roles.complete) ==> r.className == "cal-" + defName && r.title == Get(obj, roles.title)
    ensures Present(roles.complete) && Truthy(Get(obj, roles.complete.value)) ==>
      r.className == "cal-" + defName + " jack-cal-complete" && r.title == Str("COMPLETE:" + AsText(Get(obj, roles.title)))
    ensures Present(roles.complete) && !Truthy(Get(obj, roles.complete.value)) ==>
      r.className == "cal-" + defName + " jack-cal-incomplete" && r.title == Str("PENDING: " + AsText(Get(obj, roles.title)))
    ensures r.description.Some? <==> (Present(roles.description) &&
                                      !LooselyNull(Get(obj, roles.description.value)) && Get(obj, roles.description.value) != Str(""))
    ensures r.description.Some? ==> r.description.value == Get(obj, roles.description.value)
  {
    var title := Get(obj, roles.title);
    var end := if Present(roles.end) then Some(Get(obj, roles.end.value)) else None;
    var className := "cal-" + defName;
    var complete := Present(roles.complete);
    var done := complete && Truthy(Get(obj, roles.complete.value));
    var description :=
      if Present(roles.description) && !LooselyNull(Get(obj, roles.description.value)) && Get(obj, roles.description.value) != Str("")
      then Some(Get(obj, roles.description.value)) else None;
    Entry(obj.pk,
          if !complete then title else if done then Str("COMPLETE:" + AsText(title)) else Str("PENDING: " + AsText(title)),
          Get(obj, roles.start), url(table, obj.pk), end, description,
          if !complete then className else if done then className + " jack-cal-complete" else className + " jack-cal-incomplete")
  }

  /** Every class name names the table it came from. */
  lemma ClassNameNamesTable(table: string, defName: string, roles: Roles, obj: Record, url: (string, PhpValue) -> string)
    ensures "cal-" + defName <= MakeEntry(table, defName, roles, obj, url).className
  {
    var c := MakeEntry(table, defName, roles, obj, url).className;
    if Present(roles.complete) {
      if Truthy(Get(obj, roles.complete.value)) {
        assert c == ("cal-" + defName) + " jack-cal-complete";
      } else {
        assert c == ("cal-" + defName) + " jack-cal-incomplete";
      }
    }
  }

  datatype CalendarError =
    | UnknownDefinition(table: string)   // the table's Definition class does not exist
    | EmptyPropertyName(table: string)   // a start or title field was never chosen

  /** The entries one requested table contributes: none unless it carries
      the calendar label, none when its query fails, and otherwise one per
      record; reading a record by an unset (empty) start or title field
      name is an error once there is a record. */
  function TableEntries(table: string, def: CalTableDef, rows: DbRows, url: (string, PhpValue) -> string): (r: Result<seq<Entry>, CalendarError>)
    ensures "calendar" !in def.labels || !rows.Rows? ==> r == Ok([])
    ensures "calendar" in def.labels && rows.Rows? ==>
      var roles := RolesOf(def.members);
      (r.Err? <==> |rows.records| > 0 && (roles.start == "" || roles.title == "")) &&
      (r.Err? ==> r.error == EmptyPropertyName(table)) &&
      (r.Ok? ==> |r.value| == |rows.records| &&
                 forall i :: 0 <= i < |r.value| ==> r.value[i] == MakeEntry(table, def.name, roles, rows.records[i], url))
    ensures r.Ok? ==> forall e :: e in r.value ==> ("cal-" + def.name) <= e.className
  {
    if "calendar" !in def.labels || !rows.Rows? then Ok([])
    else
      var roles := RolesOf(def.members);
      var objs := rows.records;
      if |objs| > 0 && (roles.start == "" || roles.title == "") then Err(EmptyPropertyName(table))
      else
        var es := seq(|objs|, i requires 0 <= i < |objs| => MakeEntry(table, def.name, roles, objs[i], url));
        assert forall e :: e in es ==> ("cal-" + def.name) <= e.className by {
          forall e | e in es
            ensures ("cal-" + def.name) <= e.className
          {
            var i :| 0 <= i < |objs| && es[i] == e;
            ClassNameNamesTable(table, def.name, roles, objs[i], url);
          }
        }
        Ok(es)
  }

  /** The names of the listed tables whose definitions carry the calendar
      label, in list order. */
  function CalendarNames(tableList: seq<string>, defs: map<string, CalTableDef>): (r: Result<seq<string>, CalendarError>)
    ensures r.Err? <==> exists i :: 0 <= i < |tableList| && tableList[i] !in defs
    decreases |tableList|
  {
    if |tableList| == 0 then Ok([])
    else
      var n := |tableList| - 1;
      var prefix := CalendarNames(tableList[..n], defs);
      assert forall i :: 0 <= i < n ==> tableList[..n][i] == tableList[i];
      if prefix.Err? then prefix
      else if tableList[n] !in defs then Err(UnknownDefinition(tableList[n]))
      else if "calendar" in defs[tableList[n]].labels then Ok(prefix.value + [defs[tableList[n]].name])
      else prefix
  }

  /** The names keep list order: the result for a concatenation is the
      concatenated results (or the first failure), and one table gives its
      name when it is labelled calendar, nothing when it is not, and fails
      when it has no definition. */
  lemma CalendarNamesInOrder(a: seq<string>, b: seq<string>, defs: map<string, CalTableDef>)
    ensures CalendarNames(a + b, defs) == Joined(CalendarNames(a, defs), CalendarNames(b, defs))
    ensures forall t :: (CalendarNames([t], defs) ==
      if t !in defs then Err(UnknownDefinition(t))
      else if "calendar" in defs[t].labels then Ok([defs[t].name]) else Ok([]))
  {
    CalendarNamesAppend(a, b, defs);
    forall t
      ensures CalendarNames([t], defs) ==
        if t !in defs then Err(UnknownDefinition(t))
        else if "calendar" in defs[t].labels then Ok([defs[t].name]) else Ok([])
    {
      CalendarNamesSnoc([t], defs);
      assert [t][..0] == [];
      assert CalendarNames([], defs) == Ok([]);
      if t in defs {
        assert [] + [defs[t].name] == [defs[t].name];
      }
    }
  }

  /** Two results in sequence: the first failure, or both lists joined. */
  function Joined<E>(x: Result<seq<E>, CalendarError>, y: Result<seq<E>, CalendarError>): Result<seq<E>, CalendarError>
  {
    if x.Err? then x else if y.Err? then y else Ok(x.value + y.value)
  }

  lemma CalendarNamesSnoc(list: seq<string>, defs: map<string, CalTableDef>)
    requires |list| > 0
    ensures var t := list[|list| - 1];
      CalendarNames(list, defs) ==
      Joined(CalendarNames(list[..|list| - 1], defs),
                  if t !in defs then Err(UnknownDefinition(t))
                  else if "calendar" in defs[t].labels then Ok([defs[t].name]) else Ok([]))
  {
    var p := CalendarNames(list[..|list| - 1], defs);
    if p.Ok? {
      assert p.value + [] == p.value;
    }
  }

  lemma {:induction false} CalendarNamesAppend(a: seq<string>, b: seq<string>, defs: map<string, CalTableDef>)
    ensures CalendarNames(a + b, defs) == Joined(CalendarNames(a, defs), CalendarNames(b, defs))
    decreases |b|
  {
    if b == [] {
      assert a + b == a;
      var x := CalendarNames(a, defs);
      if x.Ok? {
        assert x.value + [] == x.value;
      }
    } else {
      var n := |b| - 1;
      var ab := a + b;
      assert ab[..|ab| - 1] == a + b[..n];
      assert ab[|ab| - 1] == b[n];
      CalendarNamesAppend(a, b[..n], defs);
      CalendarNamesSnoc(ab, defs);
      CalendarNamesSnoc(b, defs);
      JoinedAssociative(CalendarNames(a, defs), CalendarNames(b[..n], defs),
        var t := b[n];
        if t !in defs then Err(UnknownDefinition(t))
        else if "calendar" in defs[t].labels then Ok([defs[t].name]) else Ok([]));
    }
  }

  lemma JoinedAssociative<E>(x: Result<seq<E>, CalendarError>, y: Result<seq<E>, CalendarError>, z: Result<seq<E>, CalendarError>)
    ensures Joined(Joined(x, y), z) == Joined(x, Joined(y, z))
  {
    if x.Ok? && y.Ok? && z.Ok? {
      assert x.value + y.value + z.value == x.value + (y.value + z.value);
    }
  }

  /** 'ALL' picks exactly the labelled tables of the list. */
  lemma {:induction false} CalendarNamesMembers(tableList: seq<string>, defs: map<string, CalTableDef>, name: string)
    requires CalendarNames(tableList, defs).Ok?
    ensures name in CalendarNames(tableList, defs).value <==>
      exists i :: 0 <= i < |tableList| && "calendar" in defs[tableList[i]].labels && defs[tableList[i]].name == name
    decreases |tableList|
  {
    if |tableList| > 0 {
      var n := |tableList| - 1;
      CalendarNamesMembers(tableList[..n], defs, name);
      if exists i :: 0 <= i < n && "calendar" in defs[tableList[..n][i]].labels && defs[tableList[..n][i]].name == name {
        var i :| 0 <= i < n && "calendar" in defs[tableList[..n][i]].labels && defs[tableList[..n][i]].name == name;
        assert tableList[i] == tableList[..n][i];
      }
      if exists i :: 0 <= i < n && "calendar" in defs[tableList[i]].labels && defs[tableList[i]].name == name {
        var i :| 0 <= i < n && "calendar" in defs[tableList[i]].labels && defs[tableList[i]].name == name;
        assert tableList[i] == tableList[..n][i];
      }
    }
  }

  /** The tables to read: 'ALL' means the labelled tables of the full
      table list; anything else is a comma-separated list taken as is. */
  function SelectedTables(tables: string, tableList: seq<string>, defs: map<string, CalTableDef>): (r: Result<seq<string>, CalendarError>)
    ensures tables != "ALL" ==> r == Ok(SplitAll(tables, ','))
  {
    if tables == "ALL" then CalendarNames(tableList, defs) else Ok(SplitAll(tables, ','))
  }

  /** The entries of the selected tables, table after table; a table
      without a definition stops the run. */
  function EntriesOf(selected: seq<string>, defs: map<string, CalTableDef>, dao: string -> DbRows, url: (string, PhpValue) -> string): (r: Result<seq<Entry>, CalendarError>)
    ensures r.Ok? ==> forall i :: 0 <= i < |selected| ==> selected[i] in defs
    decreases |selected|
  {
    if |selected| == 0 then Ok([])
    else
      var n := |selected| - 1;
      var prefix := EntriesOf(selected[..n], defs, dao, url);
      if prefix.Err? then prefix
      else if selected[n] !in defs then Err(UnknownDefinition(selected[n]))
      else
        assert forall i :: 0 <= i < n ==> selected[..n][i] == selected[i];
        var more := TableEntries(selected[n], defs[selected[n]], dao(selected[n]), url);
        if more.Err? then more else Ok(prefix.value + more.value)
  }

  /** The feed keeps selection order: the entries for a concatenation are
      the concatenated entries (or the first failure), and one table gives
      its own TableEntries, or fails when it has no definition. */
  lemma EntriesOfInOrder(a: seq<string>, b: seq<string>, defs: map<string, CalTableDef>,
                          dao: string -> DbRows, url: (string, PhpValue) -> string)
    ensures EntriesOf(a + b, defs, dao, url) == Joined(EntriesOf(a, defs, dao, url), EntriesOf(b, defs, dao, url))
    ensures forall t :: (EntriesOf([t], defs, dao, url) ==
      if t !in defs then Err(UnknownDefinition(t)) else TableEntries(t, defs[t], dao(t), url))
  {
    EntriesOfAppend(a, b, defs, dao, url);
    forall t
      ensures EntriesOf([t], defs, dao, url) ==
        if t !in defs then Err(UnknownDefinition(t)) else TableEntries(t, defs[t], dao(t), url)
    {
      EntriesOfSnoc([t], defs, dao, url);
      assert [t][..0] == [];
      assert EntriesOf([], defs, dao, url) == Ok([]);
      if t in defs {
        var more := TableEntries(t, defs[t], dao(t), url);
        if more.Ok? {
          assert [] + more.value == more.value;
        }
      }
    }
  }

  /** The entries one table adds, or its failure. */
  function OneTable(t: string, defs: map<string, CalTableDef>, dao: string -> DbRows, url: (string, PhpValue) -> string): Result<seq<Entry>, CalendarError>
  {
    if t !in defs then Err(UnknownDefinition(t)) else TableEntries(t, defs[t], dao(t), url)
  }

  lemma EntriesOfSnoc(list: seq<string>, defs: map<string, CalTableDef>, dao: string -> DbRows, url: (string, PhpValue) -> string)
    requires |list| > 0
    ensures EntriesOf(list, defs, dao, url) ==
      Joined(EntriesOf(list[..|list| - 1], defs, dao, url), OneTable(list[|list| - 1], defs, dao, url))
  {
  }

  lemma {:induction false} EntriesOfAppend(a: seq<string>, b: seq<string>, defs: map<string, CalTableDef>,
                                           dao: string -> DbRows, url: (string, PhpValue) -> string)
    ensures EntriesOf(a + b, defs, dao, url) == Joined(EntriesOf(a, defs, dao, url), EntriesOf(b, defs, dao, url))
    decreases |b|
  {
    if b == [] {
      assert a + b == a;
      var x := EntriesOf(a, defs, dao, url);
      if x.Ok? {
        assert x.value + [] == x.value;
      }
    } else {
      var n := |b| - 1;
      var ab := a + b;
      assert ab[..|ab| - 1] == a + b[..n];
      assert ab[|ab| - 1] == b[n];
      EntriesOfAppend(a, b[..n], defs, dao, url);
      EntriesOfSnoc(ab, defs, dao, url);
      EntriesOfSnoc(b, defs, dao, url);
      JoinedAssociative(EntriesOf(a, defs, dao, url), EntriesOf(b[..n], defs, dao, url), OneTable(b[n], defs, dao, url));
    }
  }

  /** Only calendar tables contribute: every entry's class name starts with
      the name of a selected table labelled calendar. */
  lemma {:induction false} EntriesComeFromCalendarTables(selected: seq<string>, defs: map<string, CalTableDef>, dao: string -> DbRows, url: (string, PhpValue) -> string)
    requires EntriesOf(selected, defs, dao, url).Ok?
    ensures forall e :: e in EntriesOf(selected, defs, dao, url).value ==>
      exists i :: (0 <= i < |selected| && "calendar" in defs[selected[i]].labels &&
                   ("cal-" + defs[selected[i]].name) <= e.className)
    decreases |selected|
  {
    if |selected| > 0 {
      var n := |selected| - 1;
      EntriesComeFromCalendarTables(selected[..n], defs, dao, url);
      var prefix := EntriesOf(selected[..n], defs, dao, url).value;
      var more := TableEntries(selected[n], defs[selected[n]], dao(selected[n]), url).value;
      forall e | e in EntriesOf(selected, defs, dao, url).value
        ensures exists i :: (0 <= i < |selected| && "calendar" in defs[selected[i]].labels &&
                             ("cal-" + defs[selected[i]].name) <= e.className)
      {
        if e in prefix {
          var i :| 0 <= i < n && "calendar" in defs[selected[..n][i]].labels &&
            ("cal-" + defs[selected[..n][i]].name) <= e.className;
          assert selected[..n][i] == selected[i];
        } else {
          assert e in more;
          assert "calendar" in defs[selected[n]].labels;
        }
      }
    }
  }

  /** The whole feed. */
  function CalendarFeed(tables: string, tableList: seq<string>, defs: map<string, CalTableDef>, dao: string -> DbRows, url: (string, PhpValue) -> string): Result<seq<Entry>, CalendarError>
  {
    var selected := SelectedTables(tables, tableList, defs);
    if selected.Err? then Err(selected.error) else EntriesOf(selected.value, defs, dao, url)
  }

  /** The role search over a table's members. */
  method FindRoles(members: seq<CalMember>) returns (roles: Roles)
    ensures roles == RolesOf(members)
  {
    roles := NO_ROLES;
    for i := 0 to |members|
      invariant roles == RolesOf(members[..i])
    {
      assert members[..i + 1][..i] == members[..i];
      var member := members[i];
      if "calendar-start" in member.labels {
        roles := roles.(start := member.name);
      } else if "calendar-end" in member.labels {
        roles := roles.(end := Some(member.name));
      } else if "calendar-complete" in member.labels {
        roles := roles.(complete := Some(member.name));
      } else if "calendar-description" in member.labels {
        roles := roles.(description := Some(member.name));
      } else if "calendar-title" in member.labels {
        roles := roles.(title := member.name);
      }
    }
    assert members[..|members|] == members;
  }

  /** The script: picks the tables, then for each calendar table finds the
      roles and appends one entry per record. */
  method Calendar(tables: string, tableList: seq<string>, defs: map<string, CalTableDef>, dao: string -> DbRows, url: (string, PhpValue) -> string)
    returns (r: Result<seq<Entry>, CalendarError>)
    ensures r == CalendarFeed(tables, tableList, defs, dao, url)
  {
    var selected := SelectedTables(tables, tableList, defs);
    if selected.Err? {
      return Err(selected.error);
    }
    var list := selected.value;
    var calendarEntries := [];
    for i := 0 to |list|
      invariant EntriesOf(list[..i], defs, dao, url) == Ok(calendarEntries)
    {
      EntriesOfStep(list, i, defs, dao, url);
      var table := list[i];
      if table !in defs {
        EntriesOfStopsAtError(list, i + 1, defs, dao, url);
        return Err(UnknownDefinition(table));
      }
      var more := CalendarTable(table, defs[table], dao, url);
      if more.Err? {
        EntriesOfStopsAtError(list, i + 1, defs, dao, url);
        return Err(more.error);
      }
      calendarEntries := calendarEntries + more.value;
    }
    assert list[..|list|] == list;
    return Ok(calendarEntries);
  }

  lemma EntriesOfStep(selected: seq<string>, i: nat, defs: map<string, CalTableDef>, dao: string -> DbRows, url: (string, PhpValue) -> string)
    requires i < |selected| && EntriesOf(selected[..i], defs, dao, url).Ok?
    ensures var t := selected[i];
      EntriesOf(selected[..i + 1], defs, dao, url)
      == if t !in defs then Err(UnknownDefinition(t))
         else
           var more := TableEntries(t, defs[t], dao(t), url);
           if more.Err? then more else Ok(EntriesOf(selected[..i], defs, dao, url).value + more.value)
  {
    assert selected[..i + 1][..i] == selected[..i];
  }

  /** The body of the script's loop for one table with a definition: a
      table labelled calendar has its roles found and its records read. */
  method CalendarTable(table: string, def: CalTableDef, dao: string -> DbRows, url: (string, PhpValue) -> string)
    returns (more: Result<seq<Entry>, CalendarError>)
    ensures more == TableEntries(table, def, dao(table), url)
  {
    more := Ok([]);
    if "calendar" in def.labels {
      var roles := FindRoles(def.members);
      var objs := dao(table);
      if objs.Rows? {
        more := TableRecords(table, def, roles, objs.records, url);
      }
    }
  }

  /** Once a prefix of the tables fails, the run fails with its error. */
  lemma {:induction false} EntriesOfStopsAtError(selected: seq<string>, k: nat, defs: map<string, CalTableDef>, dao: string -> DbRows, url: (string, PhpValue) -> string)
    requires k <= |selected| && EntriesOf(selected[..k], defs, dao, url).Err?
    ensures EntriesOf(selected, defs, dao, url) == EntriesOf(selected[..k], defs, dao, url)
    decreases |selected|
  {
    if k < |selected| {
      var n := |selected| - 1;
      assert selected[..n][..k] == selected[..k];
      EntriesOfStopsAtError(selected[..n], k, defs, dao, url);
    } else {
      assert selected[..k] == selected;
    }
  }

  /** The entries for the records of one calendar table, one at a time. */
  method TableRecords(table: string, def: CalTableDef, roles: Roles, objs: seq<Record>, url: (string, PhpValue) -> string)
    returns (r: Result<seq<Entry>, CalendarError>)
    requires "calendar" in def.labels && roles == RolesOf(def.members)
    ensures r == TableEntries(table, def, Rows(objs), url)
  {
    var entries := [];
    for i := 0 to |objs|
      invariant |entries| == i
      invariant forall j :: 0 <= j < i ==> entries[j] == MakeEntry(table, def.name, roles, objs[j], url)
      invariant i > 0 ==> roles.start != "" && roles.title != ""
    {
      if roles.start == "" || roles.title == "" {
        return Err(EmptyPropertyName(table));
      }
      entries := entries + [MakeEntry(table, def.name, roles, objs[i], url)];
    }
    assert entries == seq(|objs|, i requires 0 <= i < |objs| => MakeEntry(table, def.name, roles, objs[i], url));
    return Ok(entries);
  }
}
