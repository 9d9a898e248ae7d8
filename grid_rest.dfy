/** The grid data endpoint: from the request parameters it picks the
    search value, decides between the unfiltered listing, a join through
    another table and a filtered query, turns the search option into one
    where condition, works out paging, and assembles the response. The
    data access objects and the query builder's execution are outside the
    model; a query is the list of conditions it was given. */
module GridRest {
  import opened Wrappers
  import opened JavaText

  /** A PHP value as the script handles it: a missing request parameter is
      null, present ones are strings, and the boolean search value is an
      integer. */
  datatype Value = Null | Text(s: string) | Num(n: int)

  /** The request parameters that were sent. */
  type Params = map<string, string>

  function Param(req: Params, name: string): (r: Value)
    ensures r.Null? <==> name !in req
  {
    if name in req then Text(req[name]) else Null
  }

  /** A request parameter (text or null) compared loosely with a
      non-numeric literal: only a string with that exact text is equal. */
  predicate Is(v: Value, literal: string)
  {
    v.Text? && v.s == literal
  }

  /** Any value compared loosely with a non-numeric literal, as PHP 5 does
      it: a string is equal when its text is the literal, and an integer is
      compared with the literal converted to a number, which is 0. */
  predicate LooselyIs(v: Value, literal: string)
  {
    Is(v, literal) || v == Num(0)
  }

  /** A value as text, the way the '.' operator converts it. */
  function Concat(v: Value): string
  {
    match v
    case Null => ""
    case Text(s) => s
    case Num(n) => Decimal(n)
  }

  /** The request parameter each search type takes its value from. */
  const VALUE_PARAMS: map<string, string> := map["fk" := "fkValue", "en" := "enumValue", "dt" := "datepickervalue"]

  /** The search value: a foreign key, enum or date search reads its own
      parameter, a boolean search is 1 for the 'tru' option and 0
      otherwise, and anything else reads 'value'. */
  function SearchValue(req: Params): (r: Value)
    ensures var t := Param(req, "searchtype");
      (t.Text? && t.s in VALUE_PARAMS ==> r == Param(req, VALUE_PARAMS[t.s])) &&
      (Is(t, "bl") ==> r == Num(if Is(Param(req, "searchoption"), "tru") then 1 else 0)) &&
      (!(t.Text? && (t.s in VALUE_PARAMS || t.s == "bl")) ==> r == Param(req, "value"))
  {
    var searchType := Param(req, "searchtype");
    if Is(searchType, "fk") then Param(req, "fkValue")
    else if Is(searchType, "en") then Param(req, "enumValue")
    else if Is(searchType, "dt") then Param(req, "datepickervalue")
    else if Is(searchType, "bl") then (if Is(Param(req, "searchoption"), "tru") then Num(1) else Num(0))
    else Param(req, "value")
  }

  /** A boolean search never looks at the typed value parameters. */
  lemma BooleanSearchIgnoresTypedValues(req: Params, name: string, v: string)
    requires Is(Param(req, "searchtype"), "bl")
    requires name != "searchtype" && name != "searchoption"
    ensures SearchValue(req[name := v]) == SearchValue(req)
    ensures SearchValue(req) == Num(0) || SearchValue(req) == Num(1)
  {
    assert Param(req[name := v], "searchtype") == Param(req, "searchtype");
    assert Param(req[name := v], "searchoption") == Param(req, "searchoption");
  }

  /** One where condition: table, field, operator and operand. */
  datatype Condition = Condition(table: Value, field: Value, op: string, operand: Value)

  /** The comparison options and their operators. */
  const COMPARISONS: map<string, string> := map["neq" := "!=", "lt" := "<", "lte" := "<=", "gt" := ">", "gte" := ">="]

  /** The LIKE options and the wildcards put before and after the value. */
  const PATTERNS: map<string, (string, string)> := map["cnt" := ("%", "%"), "beg" := ("", "%"), "end" := ("%", "")]

  /** addWhereClause's choice of condition for a search option. */
  function WhereCondition(table: Value, field: Value, value: Value, searchOption: Value): (r: Condition)
    ensures r.table == table && r.field == field
    ensures searchOption.Text? && searchOption.s in PATTERNS ==>
      r.op == "LIKE" && r.operand == Text(PATTERNS[searchOption.s].0 + Concat(value) + PATTERNS[searchOption.s].1)
    ensures searchOption.Text? && searchOption.s in COMPARISONS ==>
      r.op == COMPARISONS[searchOption.s] && r.operand == value
    ensures Is(searchOption, "tru") ==> r.op == "=" && r.operand == Num(1)
    ensures Is(searchOption, "fls") ==> r.op == "=" && r.operand == Num(0)
    ensures (!Is(searchOption, "tru") && !Is(searchOption, "fls") &&
             !(searchOption.Text? && (searchOption.s in PATTERNS || searchOption.s in COMPARISONS))) ==>
      r.op == "=" && r.operand == value
  {
    assert PATTERNS.Keys == {"cnt", "beg", "end"};
    assert COMPARISONS.Keys == {"neq", "lt", "lte", "gt", "gte"};
    if Is(searchOption, "cnt") then Condition(table, field, "LIKE", Text("%" + Concat(value) + "%"))
    else if Is(searchOption, "beg") then
      assert "" + Concat(value) == Concat(value);
      Condition(table, field, "LIKE", Text(Concat(value) + "%"))
    else if Is(searchOption, "end") then
      assert "%" + Concat(value) + "" == "%" + Concat(value);
      Condition(table, field, "LIKE", Text("%" + Concat(value)))
    else if Is(searchOption, "neq") then Condition(table, field, "!=", value)
    else if Is(searchOption, "lt") then Condition(table, field, "<", value)
    else if Is(searchOption, "lte") then Condition(table, field, "<=", value)
    else if Is(searchOption, "gt") then Condition(table, field, ">", value)
    else if Is(searchOption, "gte") then Condition(table, field, ">=", value)
    else if Is(searchOption, "tru") then Condition(table, field, "=", Num(1))
    else if Is(searchOption, "fls") then Condition(table, field, "=", Num(0))
    else Condition(table, field, "=", value)
  }

  /** Only the LIKE options build a LIKE condition, and a missing option is
      an equality test on the value. */
  lemma LikeOnlyForPatterns(table: Value, field: Value, value: Value, searchOption: Value)
    ensures WhereCondition(table, field, value, searchOption).op == "LIKE" <==>
      searchOption.Text? && searchOption.s in PATTERNS
    ensures searchOption.Null? ==> WhereCondition(table, field, value, searchOption) == Condition(table, field, "=", value)
  {
  }

  datatype QueryKind = Select | Count

  /** A query being built: which kind, on which object, with which
      conditions so far. */
  class Query {
    const kind: QueryKind
    const objectName: string
    var conditions: seq<Condition>

    constructor (kind: QueryKind, objectName: string)
      ensures this.kind == kind && this.objectName == objectName && conditions == []
    {
      this.kind := kind;
      this.objectName := objectName;
      conditions := [];
    }

    method Where(table: Value, field: Value, op: string, operand: Value)
      modifies this
      ensures conditions == old(conditions) + [Condition(table, field, op, operand)]
    {
      conditions := conditions + [Condition(table, field, op, operand)];
    }
  }

  /** addWhereClause: adds exactly one condition to the query, the one
      WhereCondition chooses. */
  method AddWhereClause(query: Query, table: Value, field: Value, value: Value, searchOption: Value)
    modifies query
    ensures query.conditions == old(query.conditions) + [WhereCondition(table, field, value, searchOption)]
  {
    var c := WhereCondition(table, field, value, searchOption);
    query.Where(c.table, c.field, c.op, c.operand);
  }

  /** The field of the select condition: a field with a dot after its first
      character is replaced by its second dotted part, the text between the
      first dot and the next dot (or the end). */
  function SelectField(field: Value): (r: Value)
    ensures !(field.Text? && IndexOf(field.s, '.') > 0) ==> r == field
    ensures field.Text? && IndexOf(field.s, '.') > 0 ==>
      var after := field.s[IndexOf(field.s, '.') + 1..];
      r.Text? && '.' !in r.s && r.s <= after && (|r.s| == |after| || after[|r.s|] == '.')
  {
    if field.Text? && IndexOf(field.s, '.') > 0 then
      var i := IndexOf(field.s, '.');
      SplitAllAt(field.s, '.', i);
      SplitAllFirst(field.s[i + 1..], '.');
      Text(SplitAll(field.s, '.')[1 as int])
    else field
  }

  /** The field the count condition uses as written: the second dotted part
      when the field was split, and otherwise the never-assigned parts
      array, read as null. */
  function CountFieldAsWritten(field: Value): Value
  {
    if field.Text? && IndexOf(field.s, '.') > 0 then Text(SplitAll(field.s, '.')[1 as int]) else Null
  }

  /** As written, a plain field filters the select but not the count: the
      count condition is on a null field. */
  lemma CountFieldAsWrittenDropsPlainField(field: string)
    requires '.' !in field
    ensures CountFieldAsWritten(Text(field)) == Null
    ensures SelectField(Text(field)) == Text(field)
    ensures CountFieldAsWritten(Text(field)) != SelectField(Text(field))
  {
  }

  /** For a dotted field the two agree. */
  lemma CountFieldAsWrittenDotted(table: string, column: string)
    requires table != "" && '.' !in table
    ensures CountFieldAsWritten(Text(table + "." + column)) == SelectField(Text(table + "." + column))
  {
  }

  /** In PHP 5 a boolean search for anything but 'tru' on field 'ALL' lists
      every record: its value is the integer 0, which equals 'ALL'. */
  lemma FalseSearchOnAllListsEverything(req: Params)
    requires "field" in req && req["field"] == "ALL"
    requires "searchtype" in req && req["searchtype"] == "bl"
    requires !("searchoption" in req && req["searchoption"] == "tru")
    ensures PlanOf(req) == AllRecords
  {
    assert SearchValue(req) == Num(0);
  }

  /** Which query the request leads to. */
  datatype Plan =
    | AllRecords
    | JoinQuery(joinTable: string, joinField: Value, otherJoinField: Value, value: Value, searchOption: Value)
    | FilterQuery(select: Condition, count: Condition)

  /** The query plan: field and value both 'ALL' list everything; a
      non-empty join table searches through it; otherwise the select and
      the count are filtered on the same field by the same condition. */
  function PlanOf(req: Params): (r: Plan)
    ensures r.AllRecords? <==> Is(Param(req, "field"), "ALL") && LooselyIs(SearchValue(req), "ALL")
    ensures r.JoinQuery? ==> "joinTable" in req && req["joinTable"] != ""
    ensures !r.AllRecords? && "joinTable" in req && req["joinTable"] != "" ==>
      r == JoinQuery(req["joinTable"], Param(req, "joinField"), Param(req, "otherJoinField"), SearchValue(req), Param(req, "searchoption"))
    ensures r.FilterQuery? ==> r.count == r.select && r.select.field == SelectField(Param(req, "field"))
    ensures r.FilterQuery? ==> r.select == WhereCondition(Null, r.select.field, SearchValue(req), Param(req, "searchoption"))
  {
    var field := Param(req, "field");
    var value := SearchValue(req);
    var searchOption := Param(req, "searchoption");
    if Is(field, "ALL") && LooselyIs(value, "ALL") then AllRecords
    else
      var joinTable := Param(req, "joinTable");
      if joinTable.Text? && joinTable.s != "" then
        JoinQuery(joinTable.s, Param(req, "joinField"), Param(req, "otherJoinField"), value, searchOption)
      else
        var cond := WhereCondition(Null, SelectField(field), value, searchOption);
        FilterQuery(cond, cond)
  }

  /** The filtered query's plan as written, with the count condition on
      CountFieldAsWritten. */
  function PlanOfAsWritten(req: Params): (r: Plan)
    ensures r.FilterQuery? ==> r.count.field == CountFieldAsWritten(Param(req, "field"))
  {
    var p := PlanOf(req);
    if p.FilterQuery? then
      FilterQuery(p.select, WhereCondition(Null, CountFieldAsWritten(Param(req, "field")), SearchValue(req), Param(req, "searchoption")))
    else p
  }

  /** A search on a plain field, say 'name' with value 'x', counts on a
      null field as written, so the record total no longer matches the
      filtered rows. */
  lemma PlainFieldCountMismatch()
    ensures var req := map["field" := "name", "value" := "x", "searchoption" := "cnt"];
      PlanOfAsWritten(req).FilterQuery? &&
      PlanOfAsWritten(req).select.field == Text("name") &&
      PlanOfAsWritten(req).count.field == Null &&
      PlanOf(req).count.field == Text("name")
  {
    var req := map["field" := "name", "value" := "x", "searchoption" := "cnt"];
    assert Param(req, "searchtype") == Null && Param(req, "joinTable") == Null;
    assert IndexOf("name", '.') < 0;
  }

  /** The first row offset of a page. */
  function Start(limit: int, page: int): (r: int)
    ensures r == limit * (page - 1)
  {
    limit * page - limit
  }

  /** Page 1 starts at row 0, and each next page starts limit rows on. */
  lemma StartSteps(limit: int, page: int)
    ensures Start(limit, 1) == 0
    ensures Start(limit, page + 1) == Start(limit, page) + limit
  {
  }

  /** The smallest whole number of pages of `limit` rows holding totalCount
      rows (ceil of the division; for a negative limit the ceiling of the
      negative quotient). */
  function CeilDiv(totalCount: nat, limit: int): (r: int)
    requires limit != 0
    ensures limit > 0 ==> (r - 1) * limit < totalCount <= r * limit
    ensures limit < 0 ==> r <= 0 && r * limit <= totalCount < (r - 1) * limit
  {
    if limit > 0 then (totalCount + limit - 1) / limit else -(totalCount / -limit)
  }

  /** The total page count: the ceiling of totalCount / limit when there
      are records, 0 otherwise. Dividing by a zero limit gives false (and
      a warning) in PHP 5, and ceil(false) is 0. */
  function TotalPages(totalCount: int, limit: int): (r: int)
    ensures totalCount <= 0 || limit == 0 ==> r == 0
    ensures totalCount > 0 && limit > 0 ==> r >= 1 && (r - 1) * limit < totalCount <= r * limit
    ensures totalCount > 0 && limit < 0 ==> r <= 0 && r * limit <= totalCount < (r - 1) * limit
  {
    if totalCount > 0 then
      if limit == 0 then 0 else CeilDiv(totalCount, limit)
    else 0
  }

  /** The last page starts inside the records and the page after it starts
      past them. */
  lemma LastPageHoldsLastRecord(totalCount: int, limit: int)
    requires totalCount > 0 && limit > 0
    ensures var pages := TotalPages(totalCount, limit);
      Start(limit, pages) < totalCount <= Start(limit, pages + 1)
  {
  }

  /** The response sent back. */
  datatype Response<R> = Response(page: int, total: int, records: int, rows: seq<R>)

  /** The response for the objects found: a failed query (-1) reports page,
      total and records 0 with no rows; otherwise the requested page, the
      page count, the record count and one row per object in order. */
  function ResponseOf<T, R>(page: int, totalPages: int, totalCount: int, objs: Option<seq<T>>, toRow: T -> R): (r: Response<R>)
    ensures objs.None? ==> r == Response(0, 0, 0, [])
    ensures objs.Some? ==> r.page == page && r.total == totalPages && r.records == totalCount
    ensures objs.Some? ==> |r.rows| == |objs.value| && forall i :: 0 <= i < |r.rows| ==> r.rows[i] == toRow(objs.value[i])
  {
    if objs.None? then Response(0, 0, 0, [])
    else Response(page, totalPages, totalCount, seq(|objs.value|, i requires 0 <= i < |objs.value| => toRow(objs.value[i])))
  }

  /** The objects reached through a join: the accessor applied to each join
      row, and the failure (-1) passed on. */
  function JoinedObjects<J, T>(joinobs: Option<seq<J>>, accessor: J -> T): (r: Option<seq<T>>)
    ensures r.None? <==> joinobs.None?
    ensures r.Some? ==> |r.value| == |joinobs.value| && forall i :: 0 <= i < |r.value| ==> r.value[i] == accessor(joinobs.value[i])
  {
    if joinobs.None? then None else Some(seq(|joinobs.value|, i requires 0 <= i < |joinobs.value| => accessor(joinobs.value[i])))
  }

  /** The response assembly, filling the rows one object at a time. */
  method BuildResponse<T, R>(page: int, totalPages: int, totalCount: int, objs: Option<seq<T>>, toRow: T -> R) returns (r: Response<R>)
    ensures r == ResponseOf(page, totalPages, totalCount, objs, toRow)
  {
    if objs.None? {
      return Response(0, 0, 0, []);
    }
    var os := objs.value;
    var rows := [];
    for i := 0 to |os|
      invariant |rows| == i && forall j :: 0 <= j < i ==> rows[j] == toRow(os[j])
    {
      rows := rows + [toRow(os[i])];
    }
    r := Response(page, totalPages, totalCount, rows);
  }
}
