/** The page-side description of the data model: each table definition
    holds its members keyed by name (an object whose keys are visited in
    insertion order), and each member has a database type, an optional
    foreign key and the labels of its display settings. */
module AdminDataModel {
  import opened Wrappers
  import opened JavaText

  datatype MemberDef = MemberDef(name: string, memberType: string, foriegnKey: Option<string>, labels: seq<string>)

  /** A table definition's members as (key, member) pairs in key order.
      The keys of a script object are distinct, which this type does not
      enforce: MemberAt reads the first pair with a key, while WithLabel
      and AppendUnnamed visit every pair, so the two readings agree with
      the script only on pair lists whose keys are distinct. */
  type Members = seq<(string, MemberDef)>

  /** The key lookup members[key]; None is undefined. */
  function MemberAt(members: Members, key: string): (r: Option<MemberDef>)
    ensures r.Some? <==> exists i :: 0 <= i < |members| && members[i].0 == key
    ensures r.Some? ==> exists i :: 0 <= i < |members| && members[i] == (key, r.value)
  {
    if |members| == 0 then None
    else if members[0].0 == key then Some(members[0].1)
    else MemberAt(members[1..], key)
  }

  /** A dotted reference split into its table and member parts. */
  datatype TableAndMember = TableAndMember(table: string, member: Option<string>)

  /** splitTableAndMember: the first two pieces of the split on dots; the
      second is undefined when there is no dot. */
  function SplitTableAndMember(tableAndMember: string): (r: TableAndMember)
    ensures '.' !in r.table
    ensures r.member.Some? ==> '.' !in r.member.value
  {
    var split := SplitAll(tableAndMember, '.');
    TableAndMember(split[0], if |split| > 1 then Some(split[1]) else None)
  }

  /** The text up to the first dot of s, or all of s when it has none. */
  function UpToDot(s: string): (r: string)
    ensures '.' !in r && r <= s
    ensures |r| < |s| ==> s[|r|] == '.'
  {
    var j := IndexOf(s, '.');
    if j < 0 then s else s[..j]
  }

  /** The table is the text before the first dot, and the member the text
      between the first and the second dot (or the end); with no dot the
      table is the whole text and the member undefined. */
  lemma SplitTableAndMemberParts(s: string)
    ensures var r := SplitTableAndMember(s);
      var i := IndexOf(s, '.');
      (i < 0 ==> r == TableAndMember(s, None)) &&
      (i >= 0 ==> r == TableAndMember(s[..i], Some(UpToDot(s[i + 1..]))))
  {
    var i := IndexOf(s, '.');
    if i < 0 {
      SplitAllAbsent(s, '.');
    } else {
      SplitAllAt(s, '.', i);
      FirstPieceUpToDot(s[i + 1..]);
    }
  }

  lemma FirstPieceUpToDot(s: string)
    ensures SplitAll(s, '.')[0] == UpToDot(s)
  {
    var j := IndexOf(s, '.');
    if j >= 0 {
      SplitAllAt(s, '.', j);
    }
  }

  /** Joining a dot-free table and member (and any further dotted parts)
      and splitting again gives the table and member back. */
  lemma SplitTableAndMemberRoundTrip(table: string, member: string, more: string)
    requires '.' !in table && '.' !in member
    ensures SplitTableAndMember(table + "." + member) == TableAndMember(table, Some(member))
    ensures SplitTableAndMember(table + "." + member + "." + more) == TableAndMember(table, Some(member))
  {
    SplitAllAfter(table, '.', member);
    SplitAllAbsent(member, '.');
    assert table + "." + member + "." + more == table + "." + (member + "." + more);
    SplitAllAfter(table, '.', member + "." + more);
    SplitAllAfter(member, '.', more);
  }

  const NUMBER_TYPES := {"int", "mediumint", "bigint", "tinyint", "smallint", "decimal"}
  const DATE_TYPES := {"date", "timestamp"}
  const TEXT_TYPES := {"varchar", "text", "longtext"}
  const BOOLEAN_TYPES := {"boolean", "tinyint"}

  predicate IsNumberType(m: MemberDef)
  {
    m.memberType == "int" || m.memberType == "mediumint" || m.memberType == "bigint" || m.memberType == "tinyint" ||
    m.memberType == "smallint" || m.memberType == "decimal"
  }

  predicate IsDateType(m: MemberDef)
  {
    m.memberType == "date" || m.memberType == "timestamp"
  }

  predicate IsEnumType(m: MemberDef)
  {
    m.memberType == "enum"
  }

  predicate IsTextType(m: MemberDef)
  {
    m.memberType == "varchar" || m.memberType == "text" || m.memberType == "longtext"
  }

  predicate IsBooleanType(m: MemberDef)
  {
    m.memberType == "boolean" || m.memberType == "tinyint"
  }

  /** isFkType: the foreign key is neither null nor undefined. */
  predicate IsFkType(m: MemberDef)
  {
    m.foriegnKey.Some?
  }

  /** The type classes as sets of type names; tinyint is the one type in
      two classes (number and boolean), largeint is in none, and the foreign
      key test does not look at the type at all. */
  lemma TypeClasses(m: MemberDef)
    ensures IsNumberType(m) <==> m.memberType in NUMBER_TYPES
    ensures IsDateType(m) <==> m.memberType in DATE_TYPES
    ensures IsTextType(m) <==> m.memberType in TEXT_TYPES
    ensures IsBooleanType(m) <==> m.memberType in BOOLEAN_TYPES
    ensures IsNumberType(m) && IsBooleanType(m) <==> m.memberType == "tinyint"
    ensures m.memberType == "largeint" ==> !IsNumberType(m)
    ensures !(IsDateType(m) && (IsNumberType(m) || IsTextType(m) || IsEnumType(m) || IsBooleanType(m)))
    ensures !(IsTextType(m) && (IsNumberType(m) || IsEnumType(m) || IsBooleanType(m)))
    ensures forall t :: IsFkType(m.(memberType := t)) == IsFkType(m)
  {
  }

  /** The members, in key order, whose labels include lbl. */
  function WithLabel(members: Members, lbl: string): (r: seq<MemberDef>)
    ensures |r| <= |members|
    ensures forall x :: x in r ==> lbl in x.labels
    ensures forall i :: 0 <= i < |members| && lbl in members[i].1.labels ==> members[i].1 in r
    decreases |members|
  {
    if |members| == 0 then []
    else
      var n := |members| - 1;
      var prefix := WithLabel(members[..n], lbl);
      assert forall i :: 0 <= i < n ==> members[..n][i] == members[i];
      if lbl in members[n].1.labels then prefix + [members[n].1] else prefix
  }

  /** The values of the key-value pairs, in order. */
  function Values(members: Members): (r: seq<MemberDef>)
    ensures |r| == |members|
    ensures forall i :: 0 <= i < |members| ==> r[i] == members[i].1
  {
    seq(|members|, i requires 0 <= i < |members| => members[i].1)
  }

  lemma ValuesSnoc(members: Members)
    requires |members| > 0
    ensures Values(members) == Values(members[..|members| - 1]) + [members[|members| - 1].1]
  {
  }

  lemma WithLabelSnoc(members: Members, lbl: string)
    requires |members| > 0
    ensures var m := members[|members| - 1].1;
      WithLabel(members, lbl) == WithLabel(members[..|members| - 1], lbl) + if lbl in m.labels then [m] else []
  {
  }

  /** The kept members stay in member order: the result for a
      concatenation is the concatenated results, and one member is kept
      exactly when it carries the label. */
  lemma WithLabelInOrder(a: Members, b: Members, lbl: string)
    ensures WithLabel(a + b, lbl) == WithLabel(a, lbl) + WithLabel(b, lbl)
    ensures forall p: (string, MemberDef) :: WithLabel([p], lbl) == if lbl in p.1.labels then [p.1] else []
  {
    WithLabelAppend(a, b, lbl);
    forall p: (string, MemberDef)
      ensures WithLabel([p], lbl) == if lbl in p.1.labels then [p.1] else []
    {
      WithLabelSnoc([p], lbl);
      assert [p][..0] == [];
    }
  }

  lemma {:induction false} WithLabelAppend(a: Members, b: Members, lbl: string)
    ensures WithLabel(a + b, lbl) == WithLabel(a, lbl) + WithLabel(b, lbl)
    decreases |b|
  {
    if b == [] {
      assert a + b == a;
    } else {
      var n := |b| - 1;
      var ab := a + b;
      assert ab[..|ab| - 1] == a + b[..n];
      assert ab[|ab| - 1] == b[n];
      WithLabelAppend(a, b[..n], lbl);
      WithLabelSnoc(ab, lbl);
      WithLabelSnoc(b, lbl);
    }
  }

  /** Each labelled member is kept as often as it occurs, every other one
      is dropped. */
  lemma {:induction false} WithLabelCounts(members: Members, lbl: string, x: MemberDef)
    ensures multiset(WithLabel(members, lbl))[x] == if lbl in x.labels then multiset(Values(members))[x] else 0
    decreases |members|
  {
    if |members| > 0 {
      var n := |members| - 1;
      WithLabelCounts(members[..n], lbl, x);
      ValuesSnoc(members);
      WithLabelSnoc(members, lbl);
    }
  }

  datatype LookupError = UndefinedTable(tableName: string)

  /** tableColumnsWithLabel: the members of the named table that carry the
      label, in member order; an unknown table is a read of undefined. */
  method TableColumnsWithLabel(td: map<string, Members>, tableName: string, labelName: string)
    returns (r: Result<seq<MemberDef>, LookupError>)
    ensures tableName !in td ==> r == Err(UndefinedTable(tableName))
    ensures tableName in td ==> r == Ok(WithLabel(td[tableName], labelName))
  {
    if tableName !in td {
      return Err(UndefinedTable(tableName));
    }
    var members := td[tableName];
    var cols := [];
    for i := 0 to |members|
      invariant cols == WithLabel(members[..i], labelName)
    {
      assert members[..i + 1][..i] == members[..i];
      var tblMem := members[i].1;
      if labelName in tblMem.labels {
        cols := cols + [tblMem];
      }
    }
    assert members[..|members|] == members;
    return Ok(cols);
  }
}
