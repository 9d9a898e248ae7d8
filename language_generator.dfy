/** The language generator: the default language entries for the tables
    and menus, and one entry map per language file, each a copy of the
    defaults overlaid with that file. */
module LanguageGenerator {
  import opened Wrappers
  import opened JavaText
  import opened Schema
  import opened StableSort
  import opened Menus

  /** The StringUtils helpers the generator calls, which are not part of
      this model: getCaseExplodedName(_, false) and uppercaseFirstChar. */
  datatype StringUtils = StringUtils(explode: string -> string, uppercaseFirstChar: string -> string)

  type Entry = (string, string)

  /** The map after putting each entry in turn: a later put of a key wins. */
  function PutAll(m: map<string, string>, entries: seq<Entry>): map<string, string>
  {
    if entries == [] then m
    else
      var last := entries[|entries| - 1];
      PutAll(m, entries[..|entries| - 1])[last.0 := last.1]
  }

  lemma PutAllStep(m: map<string, string>, entries: seq<Entry>, k: nat)
    requires k < |entries|
    ensures PutAll(m, entries[..k + 1]) == PutAll(m, entries[..k])[entries[k].0 := entries[k].1]
  {
    assert entries[..k + 1][..k] == entries[..k];
  }

  lemma {:induction false} PutAllAppend(m: map<string, string>, a: seq<Entry>, b: seq<Entry>)
    ensures PutAll(m, a + b) == PutAll(PutAll(m, a), b)
    decreases |b|
  {
    if b == [] {
      assert a + b == a;
    } else {
      assert (a + b)[..|a + b| - 1] == a + b[..|b| - 1];
      PutAllAppend(m, a, b[..|b| - 1]);
    }
  }

  /** The keys after the puts are the old keys and every key put. */
  lemma {:induction false} PutAllKeys(m: map<string, string>, entries: seq<Entry>)
    ensures PutAll(m, entries).Keys == m.Keys + set i | 0 <= i < |entries| :: entries[i].0
    decreases |entries|
  {
    if entries != [] {
      var init := entries[..|entries| - 1];
      PutAllKeys(m, init);
      assert forall i :: 0 <= i < |init| ==> init[i] == entries[i];
      assert (set i | 0 <= i < |entries| :: entries[i].0)
          == (set i | 0 <= i < |init| :: init[i].0) + {entries[|entries| - 1].0};
    }
  }

  /** No later entry puts the key of entry i again. */
  predicate LastPut(entries: seq<Entry>, i: nat)
    requires i < |entries|
  {
    forall j :: i < j < |entries| ==> entries[j].0 != entries[i].0
  }

  /** A key maps to the value of its last put, or keeps its old value
      when it is never put. */
  lemma {:induction false} PutAllValue(m: map<string, string>, entries: seq<Entry>, key: string)
    ensures (forall i :: 0 <= i < |entries| ==> entries[i].0 != key) && key in m ==>
      key in PutAll(m, entries) && PutAll(m, entries)[key] == m[key]
    ensures forall i :: 0 <= i < |entries| && entries[i].0 == key && LastPut(entries, i) ==>
      key in PutAll(m, entries) && PutAll(m, entries)[key] == entries[i].1
    decreases |entries|
  {
    if entries != [] {
      var init := entries[..|entries| - 1];
      PutAllValue(m, init, key);
      assert forall i :: 0 <= i < |init| ==> init[i] == entries[i];
    }
  }

  /** The text of a generated entry: the case-exploded name, a fixed
      text, or the case-exploded name between two fixed texts. */
  datatype Message = Exploded | Fixed(text: string) | Around(before: string, after: string)

  function Render(m: Message, e: string): string
  {
    match m
    case Exploded => e
    case Fixed(text) => text
    case Around(before, after) => before + e + after
  }

  /** The key suffixes generateTableEntries adds after "Tbl_T", in order,
      with their texts. */
  const MESSAGES: seq<(string, Message)> := [
    ("", Exploded),
    ("__tab", Exploded),
    ("__help", Fixed("")),
    ("__saving", Around("Saving ", "... Please Wait.")),
    ("__saved", Fixed("Saved.")),
    ("__saveFailed", Fixed("Failed to update item.")),
    ("__creating", Around("Creating ", "... Please Wait.")),
    ("__created", Around("New ", " created. ")),
    ("__createFailed", Around("Failed to create new ", ".")),
    ("__deleting", Around("Deleting ", " item/s... Please Wait.")),
    ("__deleted", Fixed("Items deleted.")),
    ("__deleteFailed", Fixed("Failed to delete item/s.")),
    ("__multipleDeleting", Around("Deleting ", " item/s... Please Wait.")),
    ("__multipleDeleted", Fixed("Items deleted.")),
    ("__multipleDeleteFailed", Fixed("Failed to delete item/s.")),
    ("__multipleDeletePartial", Fixed("Partial Success: Some items could not be deleted.")),
    ("__linking", Around("Linking ", " item... Please Wait.")),
    ("__linked", Fixed("Items Linked.")),
    ("__linkFailed", Fixed("Failed to link items.")),
    ("__linkDeleted", Around("Linking ", " item/s... Please Wait.")),
    ("__linkDeleteFailed", Fixed("Items Linked.")),
    ("__linksDeletePartial", Fixed("Partial Success: Some links could not be deleted.")),
    ("__linksDeleted", Fixed("Links Deleted.")),
    ("__linksDeleteFailed", Fixed("Failed to delete links.")),
    ("__ordering", Fixed("Ordering items... Please Wait.")),
    ("__orderPartial", Fixed("Partial Success: Some items could not be ordered.")),
    ("__ordered", Fixed("Items ordered.")),
    ("__orderFailed", Fixed("Failed to order items.")),
    ("__enablePartial", Fixed("Partial Success: Some items could not be enabled.")),
    ("__enabled", Fixed("Items enabled.")),
    ("__enableFailed", Fixed("Failed to enable items.")),
    ("__disablePartial", Fixed("Partial Success: Some items could not be disabled.")),
    ("__disabled", Fixed("Items disabled.")),
    ("__disableFailed", Fixed("Failed to disable items."))
  ]

  /** The "Tbl_T" and "Tbl_T__suffix" entries of a table named after p;
      e is the table name, case-exploded. */
  function TableMessageEntries(p: string, e: string): (r: seq<Entry>)
    ensures |r| == |MESSAGES|
    ensures forall i :: 0 <= i < |MESSAGES| ==> r[i] == (p + MESSAGES[i].0, Render(MESSAGES[i].1, e))
  {
    seq(|MESSAGES|, i requires 0 <= i < |MESSAGES| => (p + MESSAGES[i].0, Render(MESSAGES[i].1, e)))
  }

  /** The entries of each column: "Tbl_T_C" and "Tbl_T_C__help". */
  function ColumnEntries(p: string, columns: seq<Column>, u: StringUtils): (r: seq<Entry>)
    ensures |r| == 2 * |columns|
    ensures forall i :: 0 <= i < |columns| ==>
      r[2 * i] == (p + "_" + columns[i].name, u.explode(columns[i].name)) &&
      r[2 * i + 1] == (p + "_" + columns[i].name + "__help", "")
  {
    if columns == [] then []
    else
      var c := columns[|columns| - 1];
      ColumnEntries(p, columns[..|columns| - 1], u) + [(p + "_" + c.name, u.explode(c.name)), (p + "_" + c.name + "__help", "")]
  }

  /** Every entry generateTableEntries adds for one table, in order. */
  function TableEntries(t: Table, u: StringUtils): seq<Entry>
  {
    var p := "Tbl_" + t.name;
    TableMessageEntries(p, u.explode(t.name)) +
    [(p + "_" + t.primaryKey, u.explode(t.primaryKey))] +
    ColumnEntries(p, t.columns, u)
  }

  function TablesEntries(tables: seq<Table>, u: StringUtils): seq<Entry>
  {
    if tables == [] then []
    else TablesEntries(tables[..|tables| - 1], u) + TableEntries(tables[|tables| - 1], u)
  }

  /** The entries generateMenuEntries adds for one item: "Menu_<name>", then
      "SubMenu_<name>" for each sub-item in sorted order. */
  function SubMenuEntries(subs: seq<MenuItem>, u: StringUtils): (r: seq<Entry>)
    ensures |r| == |subs|
    ensures forall i :: 0 <= i < |subs| ==>
      r[i] == ("SubMenu_" + subs[i].name, u.explode(u.uppercaseFirstChar(subs[i].name)))
  {
    if subs == [] then []
    else
      var s := subs[|subs| - 1];
      SubMenuEntries(subs[..|subs| - 1], u) + [("SubMenu_" + s.name, u.explode(u.uppercaseFirstChar(s.name)))]
  }

  function MenuItemEntries(m: MenuItem, u: StringUtils): seq<Entry>
  {
    [("Menu_" + m.name, u.explode(u.uppercaseFirstChar(m.name)))] + SubMenuEntries(SortSubMenus(m).subMenus, u)
  }

  function MenuEntries(items: seq<MenuItem>, u: StringUtils): seq<Entry>
  {
    if items == [] then []
    else MenuEntries(items[..|items| - 1], u) + MenuItemEntries(items[|items| - 1], u)
  }

  lemma MenuEntriesStep(items: seq<MenuItem>, i: nat, u: StringUtils)
    requires i < |items|
    ensures MenuEntries(items[..i + 1], u) == MenuEntries(items[..i], u) + MenuItemEntries(items[i], u)
  {
    assert items[..i + 1][..i] == items[..i];
  }

  /** The keys of all entries. */
  function Keys(entries: seq<Entry>): set<string>
  {
    set i | 0 <= i < |entries| :: entries[i].0
  }

  lemma KeysAppend(a: seq<Entry>, b: seq<Entry>)
    ensures Keys(a + b) == Keys(a) + Keys(b)
  {
    forall k | k in Keys(a + b)
      ensures k in Keys(a) + Keys(b)
    {
      var i :| 0 <= i < |a + b| && (a + b)[i].0 == k;
      if i >= |a| {
        assert b[i - |a|].0 == k;
      }
    }
    forall k | k in Keys(a) + Keys(b)
      ensures k in Keys(a + b)
    {
      if k in Keys(a) {
        var i :| 0 <= i < |a| && a[i].0 == k;
        assert (a + b)[i].0 == k;
      } else {
        var i :| 0 <= i < |b| && b[i].0 == k;
        assert (a + b)[|a| + i].0 == k;
      }
    }
  }

  /** The keys one table contributes: "Tbl_T", "Tbl_T__tab", "Tbl_T__help",
      "Tbl_T_<primary key>", and "Tbl_T_C" and "Tbl_T_C__help" for each
      column C. */
  lemma TableKeys(t: Table, u: StringUtils, c: nat)
    requires c < |t.columns|
    ensures var p := "Tbl_" + t.name;
      var keys := Keys(TableEntries(t, u));
      p in keys && p + "__tab" in keys && p + "__help" in keys &&
      p + "_" + t.primaryKey in keys &&
      p + "_" + t.columns[c].name in keys &&
      p + "_" + t.columns[c].name + "__help" in keys
  {
    var p := "Tbl_" + t.name;
    var msg := TableMessageEntries(p, u.explode(t.name));
    var te := TableEntries(t, u);
    var cols := ColumnEntries(p, t.columns, u);
    var n := |MESSAGES|;
    assert MESSAGES[0].0 == "" && MESSAGES[1].0 == "__tab" && MESSAGES[2].0 == "__help";
    assert p + "" == p;
    assert te[0] == msg[0] && te[1] == msg[1] && te[2] == msg[2];
    assert te[0].0 == p && te[1].0 == p + "__tab" && te[2].0 == p + "__help";
    assert te[n].0 == p + "_" + t.primaryKey;
    assert te[n + 1 + 2 * c] == cols[2 * c];
    assert te[n + 1 + 2 * c + 1] == cols[2 * c + 1];
  }

  /** Every table of the list gets its own keys. */
  lemma {:induction false} TableKeysGenerated(tables: seq<Table>, u: StringUtils, j: nat, c: nat)
    requires j < |tables| && c < |tables[j].columns|
    ensures Keys(TableEntries(tables[j], u)) <= Keys(TablesEntries(tables, u))
    ensures var p := "Tbl_" + tables[j].name;
      var keys := Keys(TablesEntries(tables, u));
      p in keys && p + "__tab" in keys && p + "__help" in keys &&
      p + "_" + tables[j].primaryKey in keys &&
      p + "_" + tables[j].columns[c].name in keys &&
      p + "_" + tables[j].columns[c].name + "__help" in keys
    decreases |tables|
  {
    var init := tables[..|tables| - 1];
    KeysAppend(TablesEntries(init, u), TableEntries(tables[|tables| - 1], u));
    if j == |tables| - 1 {
      TableKeys(tables[j], u, c);
    } else {
      assert init[j] == tables[j];
      TableKeysGenerated(init, u, j, c);
    }
  }

  /** Table and column keys are not collision-free: table "a_b" with
      column "c" and table "a" with column "b_c" both produce "Tbl_a_b_c". */
  lemma ColumnKeysCanCollide(u: StringUtils, col1: Column, col2: Column)
    requires col1.name == "c" && col2.name == "b_c"
    ensures var t1 := Table("a_b", [col1], "c", EmptySettings, [], None, None, None);
      var t2 := Table("a", [col2], "b_c", EmptySettings, [], None, None, None);
      "Tbl_a_b_c" in Keys(TableEntries(t1, u)) && "Tbl_a_b_c" in Keys(TableEntries(t2, u))
  {
    var t1 := Table("a_b", [col1], "c", EmptySettings, [], None, None, None);
    var t2 := Table("a", [col2], "b_c", EmptySettings, [], None, None, None);
    var n := |MESSAGES|;
    assert TableEntries(t1, u)[n].0 == "Tbl_a_b" + "_" + "c" == "Tbl_a_b_c";
    assert TableEntries(t2, u)[n].0 == "Tbl_a" + "_" + "b_c" == "Tbl_a_b_c";
  }

  /** Every menu item and every sub-item gets a "Menu_" or "SubMenu_" key. */
  lemma {:induction false} MenuKeysGenerated(items: seq<MenuItem>, u: StringUtils, j: nat)
    requires j < |items|
    ensures "Menu_" + items[j].name in Keys(MenuEntries(items, u))
    ensures forall s :: s in items[j].subMenus ==> "SubMenu_" + s.name in Keys(MenuEntries(items, u))
    decreases |items|
  {
    var init := items[..|items| - 1];
    var last := items[|items| - 1];
    KeysAppend(MenuEntries(init, u), MenuItemEntries(last, u));
    if j == |items| - 1 {
      var subs := SortSubMenus(last).subMenus;
      var es := MenuItemEntries(last, u);
      assert es[0].0 == "Menu_" + last.name;
      forall s | s in last.subMenus
        ensures "SubMenu_" + s.name in Keys(es)
      {
        assert s in multiset(subs);
        var i :| 0 <= i < |subs| && subs[i] == s;
        assert es[1 + i].0 == "SubMenu_" + s.name;
      }
    } else {
      assert init[j] == items[j];
      MenuKeysGenerated(init, u, j);
    }
  }

  /** A language file as listed and loaded: its name and its entries. */
  datatype LangFile = LangFile(fileName: string, entries: map<string, string>)

  /** langFileName.split("\\.")[0]; None where Java would index an empty
      array (a name made only of dots). */
  function LanguageName(fileName: string): Option<string>
  {
    var parts := JavaSplit(fileName, '.');
    if parts == [] then None else Some(parts[0])
  }

  lemma {:induction false} JoinOfEmptyPieces(pieces: seq<string>, c: char)
    requires forall k :: 0 <= k < |pieces| ==> pieces[k] == ""
    ensures forall i :: 0 <= i < |Join(pieces, c)| ==> Join(pieces, c)[i] == c
    decreases |pieces|
  {
    if |pieces| > 1 {
      JoinOfEmptyPieces(pieces[1..], c);
    }
  }

  /** The language of a ".properties" file is the text before its first '.'. */
  lemma LanguageOfPropertiesFile(fileName: string)
    requires EndsWith(fileName, ".properties")
    ensures IndexOf(fileName, '.') >= 0
    ensures LanguageName(fileName) == Some(fileName[..IndexOf(fileName, '.')])
  {
    var n := |fileName|;
    assert fileName[n - 11..][0] == '.' && fileName[n - 11..][10] == 's';
    assert '.' in fileName;
    var all := SplitAll(fileName, '.');
    if DropTrailingEmpty(all) == [] {
      JoinSplitAll(fileName, '.');
      JoinOfEmptyPieces(all, '.');
      assert false;
    }
  }

  /** The language maps after the files are merged in turn: each
      ".properties" file stores a copy of the defaults overlaid with its
      own entries under its language; a later file of the same language
      replaces an earlier one. */
  function LanguageMaps(langs: map<string, map<string, string>>, defaults: map<string, string>, files: seq<LangFile>): map<string, map<string, string>>
  {
    if files == [] then langs
    else
      var prev := LanguageMaps(langs, defaults, files[..|files| - 1]);
      var f := files[|files| - 1];
      if EndsWith(f.fileName, ".properties") && LanguageName(f.fileName).Some? then
        prev[LanguageName(f.fileName).value := defaults + f.entries]
      else prev
  }

  /** Each listed language gets the defaults with its own file laid over
      them: the file's entries win, and keys only in the defaults keep the
      default value. */
  lemma {:induction false} LanguageIsDefaultsOverlaid(langs: map<string, map<string, string>>, defaults: map<string, string>, files: seq<LangFile>, i: nat)
    requires i < |files| && EndsWith(files[i].fileName, ".properties")
    requires forall j :: i < j < |files| && EndsWith(files[j].fileName, ".properties") ==>
      LanguageName(files[j].fileName) != LanguageName(files[i].fileName)
    ensures LanguageName(files[i].fileName).Some?
    ensures var lang := LanguageName(files[i].fileName).value;
      var r := LanguageMaps(langs, defaults, files);
      lang in r && r[lang].Keys == defaults.Keys + files[i].entries.Keys &&
      (forall k :: k in files[i].entries ==> r[lang][k] == files[i].entries[k]) &&
      (forall k :: k in defaults && k !in files[i].entries ==> r[lang][k] == defaults[k])
    decreases |files|
  {
    LanguageOfPropertiesFile(files[i].fileName);
    if i < |files| - 1 {
      var init := files[..|files| - 1];
      assert init[i] == files[i];
      LanguageIsDefaultsOverlaid(langs, defaults, init, i);
      var last := files[|files| - 1];
      if EndsWith(last.fileName, ".properties") {
        LanguageOfPropertiesFile(last.fileName);
      }
    }
  }

  lemma LanguageMapsStep(langs: map<string, map<string, string>>, defaults: map<string, string>, files: seq<LangFile>, i: nat)
    requires i < |files|
    ensures var before := LanguageMaps(langs, defaults, files[..i]);
      var f := files[i];
      LanguageMaps(langs, defaults, files[..i + 1])
      == if EndsWith(f.fileName, ".properties") && LanguageName(f.fileName).Some? then
           before[LanguageName(f.fileName).value := defaults + f.entries]
         else before
  {
    assert files[..i + 1][..i] == files[..i];
  }

  /** Strictly ascending in String.compareTo order. */
  ghost predicate StrictlySorted(s: seq<string>)
  {
    forall i, j :: 0 <= i < j < |s| ==> CompareLess(s[i], s[j])
  }

  function InsertKey(x: string, s: seq<string>): (r: seq<string>)
    ensures multiset(r) == multiset(s) + multiset{x}
  {
    if s == [] || CompareLess(x, s[0]) then [x] + s
    else
      assert s == [s[0]] + s[1..];
      [s[0]] + InsertKey(x, s[1..])
  }

  /** Collections.sort of a list of distinct strings. */
  function SortKeys(s: seq<string>): (r: seq<string>)
    ensures multiset(r) == multiset(s)
  {
    if s == [] then []
    else
      assert s == [s[0]] + s[1..];
      InsertKey(s[0], SortKeys(s[1..]))
  }

  /** A key below every element of a strictly sorted list can go in front. */
  lemma SortedCons(a: string, t: seq<string>)
    requires StrictlySorted(t)
    requires forall y :: y in t ==> CompareLess(a, y)
    ensures StrictlySorted([a] + t)
  {
    var r := [a] + t;
    forall i, j | 0 <= i < j < |r|
      ensures CompareLess(r[i], r[j])
    {
      assert r[j] == t[j - 1];
      if i > 0 {
        assert r[i] == t[i - 1];
      }
    }
  }

  /** Below the head of a strictly sorted list is below all of it. */
  lemma BelowHead(x: string, s: seq<string>)
    requires StrictlySorted(s) && s != [] && CompareLess(x, s[0])
    ensures forall y :: y in s ==> CompareLess(x, y)
  {
    forall y | y in s
      ensures CompareLess(x, y)
    {
      var m :| 0 <= m < |s| && s[m] == y;
      if m > 0 {
        CompareLessTransitive(x, s[0], y);
      }
    }
  }

  lemma SortedTail(s: seq<string>)
    requires StrictlySorted(s) && s != []
    ensures StrictlySorted(s[1..])
  {
    var t := s[1..];
    forall i, j | 0 <= i < j < |t|
      ensures CompareLess(t[i], t[j])
    {
      assert t[i] == s[i + 1] && t[j] == s[j + 1];
    }
  }

  /** The head of a strictly sorted list is below every key of the tail with
      x inserted, when x is above the head. */
  lemma HeadBelowInserted(x: string, s: seq<string>)
    requires StrictlySorted(s) && s != [] && CompareLess(s[0], x)
    ensures forall y :: y in InsertKey(x, s[1..]) ==> CompareLess(s[0], y)
  {
    var t := s[1..];
    var tail := InsertKey(x, t);
    forall y | y in tail
      ensures CompareLess(s[0], y)
    {
      assert y in multiset(tail);
      if y != x {
        assert y in multiset(t);
        var m :| 0 <= m < |t| && t[m] == y;
        assert s[m + 1] == y;
      }
    }
  }

  lemma {:induction false} InsertKeySorted(x: string, s: seq<string>)
    requires StrictlySorted(s) && x !in s
    ensures StrictlySorted(InsertKey(x, s))
    decreases |s|
  {
    if s == [] {
    } else if CompareLess(x, s[0]) {
      BelowHead(x, s);
      SortedCons(x, s);
    } else {
      CompareLessTotal(x, s[0]);
      SortedTail(s);
      assert x !in s[1..];
      InsertKeySorted(x, s[1..]);
      HeadBelowInserted(x, s);
      SortedCons(s[0], InsertKey(x, s[1..]));
    }
  }

  /** Sorting distinct keys gives them in strictly ascending order. */
  lemma {:induction false} SortKeysSorted(s: seq<string>)
    requires forall i, j :: 0 <= i < j < |s| ==> s[i] != s[j]
    ensures StrictlySorted(SortKeys(s))
    decreases |s|
  {
    if s != [] {
      SortKeysSorted(s[1..]);
      assert s[0] !in s[1..];
      assert s[0] !in multiset(SortKeys(s[1..]));
      InsertKeySorted(s[0], SortKeys(s[1..]));
    }
  }

  class Properties {
    var entries: map<string, string>

    constructor ()
      ensures entries == map[]
    {
      entries := map[];
    }

    method Put(key: string, value: string)
      modifies this
      ensures entries == old(entries)[key := value]
    {
      entries := entries[key := value];
    }

    /** load: adds the entries read from a file; the reading is not part
        of this model. */
    method Load(loaded: map<string, string>)
      modifies this
      ensures entries == old(entries) + loaded
    {
      entries := entries + loaded;
    }
  }

  /** addAll: puts every entry of from into into, key by key; from is not
      changed (it may be into itself). */
  method AddAll(from: Properties, into: Properties)
    modifies into
    ensures into.entries == old(into.entries) + old(from.entries)
    ensures from != into ==> from.entries == old(from.entries)
  {
    var source := from.entries;
    var keys := source.Keys;
    while keys != {}
      invariant keys <= source.Keys
      invariant into.entries == old(into.entries) + (map k | k in source && k !in keys :: source[k])
      invariant from != into ==> from.entries == old(from.entries)
      decreases keys
    {
      var k :| k in keys;
      into.Put(k, source[k]);
      keys := keys - {k};
    }
    assert (map k | k in source && k !in keys :: source[k]) == source;
  }

  /** The entries of each language's properties object. */
  ghost function ViewOf(m: map<string, Properties>): map<string, map<string, string>>
    reads m.Values
  {
    map lang | lang in m :: m[lang].entries
  }

  lemma ViewOfUpdate(m: map<string, Properties>, lang: string, p: Properties)
    ensures ViewOf(m[lang := p]) == ViewOf(m)[lang := p.entries]
  {
  }

  class Generator {
    const tables: seq<Table>
    const menu: Menu
    const utils: StringUtils
    var properties: Properties
    var languageProperties: map<string, Properties>

    /** The entries of each language, as values. */
    ghost function LanguageView(): map<string, map<string, string>>
      reads this, languageProperties.Values
    {
      ViewOf(languageProperties)
    }

    /** The constructor's work once the base entries and the language files
        are read: defaults, table entries, menu entries, then one map per
        language file. */
    constructor (tables: seq<Table>, menu: Menu, utils: StringUtils,
                 baseEntries: map<string, string>, langFiles: seq<LangFile>)
      modifies menu
      ensures this.tables == tables && this.menu == menu && this.utils == utils
      ensures menu.menus == Sort(old(menu.menus), Rank)
      ensures properties.entries
           == PutAll(PutAll(baseEntries, TablesEntries(tables, utils)), MenuEntries(menu.menus, utils))
      ensures LanguageView() == LanguageMaps(map[], properties.entries, langFiles)
      ensures Separate()
    {
      this.tables := tables;
      this.menu := menu;
      this.utils := utils;
      properties := new Properties();
      languageProperties := map[];
      new;
      ReadDefaultEntries(baseEntries);
      GenerateTableEntries();
      GenerateMenuEntries();
      MergeLanguages(langFiles);
    }

    method ReadDefaultEntries(baseEntries: map<string, string>)
      modifies this
      ensures fresh(properties) && properties.entries == baseEntries
      ensures languageProperties == old(languageProperties)
    {
      properties := new Properties();
      var temp := new Properties();
      temp.Load(baseEntries);
      AddAll(temp, properties);
    }

    /** addEntry: the line written to jackentries.txt is not part of this
        model; the entry is put into the defaults. */
    method AddEntry(key: string, value: string)
      modifies properties
      ensures properties.entries == old(properties.entries)[key := value]
    {
      properties.Put(key, value);
    }

    /** The addEntry calls for a run of entries, in order. */
    method AddEntries(entries: seq<Entry>)
      modifies properties
      ensures properties.entries == PutAll(old(properties.entries), entries)
    {
      for j := 0 to |entries|
        invariant properties.entries == PutAll(old(properties.entries), entries[..j])
      {
        assert entries[..j + 1][..j] == entries[..j];
        AddEntry(entries[j].0, entries[j].1);
      }
      assert entries[..|entries|] == entries;
    }

    /** generateTableEntries: the entries of each table in turn. */
    method GenerateTableEntries()
      modifies properties
      ensures properties.entries == PutAll(old(properties.entries), TablesEntries(tables, utils))
    {
      for i := 0 to |tables|
        invariant properties.entries == PutAll(old(properties.entries), TablesEntries(tables[..i], utils))
      {
        assert tables[..i + 1][..i] == tables[..i];
        AddEntries(TableEntries(tables[i], utils));
        PutAllAppend(old(properties.entries), TablesEntries(tables[..i], utils), TableEntries(tables[i], utils));
      }
      assert tables[..|tables|] == tables;
    }

    /** The entries of one menu item: its own, then those of its sub-items
        in sorted order. */
    method AddMenuItemEntries(item: MenuItem)
      modifies properties
      ensures properties.entries == PutAll(old(properties.entries), MenuItemEntries(item, utils))
    {
      var subs := SortSubMenus(item).subMenus;
      var entries := MenuItemEntries(item, utils);
      var subEntries := SubMenuEntries(subs, utils);
      assert entries == [entries[0]] + subEntries;
      AddEntry("Menu_" + item.name, utils.explode(utils.uppercaseFirstChar(item.name)));
      PutAllStep(old(properties.entries), entries, 0);
      assert entries[..0] == [];
      for j := 0 to |subs|
        invariant properties.entries == PutAll(old(properties.entries), entries[..j + 1])
      {
        PutAllStep(old(properties.entries), entries, j + 1);
        assert entries[j + 1] == subEntries[j];
        AddEntry("SubMenu_" + subs[j].name, utils.explode(utils.uppercaseFirstChar(subs[j].name)));
      }
      assert entries[..|subs| + 1] == entries;
    }

    /** generateMenuEntries: the menus are sorted by rank first. */
    method GenerateMenuEntries()
      modifies properties, menu
      ensures menu.menus == Sort(old(menu.menus), Rank)
      ensures properties.entries == PutAll(old(properties.entries), MenuEntries(menu.menus, utils))
    {
      var items := menu.GetMenus();
      AddMenuEntries(items);
    }

    /** The loop of generateMenuEntries over the sorted items. */
    method AddMenuEntries(items: seq<MenuItem>)
      modifies properties
      ensures properties.entries == PutAll(old(properties.entries), MenuEntries(items, utils))
    {
      for i := 0 to |items|
        invariant properties.entries == PutAll(old(properties.entries), MenuEntries(items[..i], utils))
      {
        MenuEntriesStep(items, i, utils);
        AddMenuItemEntries(items[i]);
        PutAllAppend(old(properties.entries), MenuEntries(items[..i], utils), MenuItemEntries(items[i], utils));
      }
      assert items[..|items|] == items;
    }

    /** No language map is the defaults object itself. */
    predicate Separate()
      reads this
    {
      forall lang :: lang in languageProperties ==> languageProperties[lang] != properties
    }

    /** A fresh copy of the defaults with the given entries laid over it. */
    method DefaultsWith(fileEntries: map<string, string>) returns (tempProps: Properties)
      ensures fresh(tempProps) && tempProps.entries == properties.entries + fileEntries
    {
      tempProps := new Properties();
      AddAll(properties, tempProps);
      var tempLangProps := new Properties();
      tempLangProps.Load(fileEntries);
      AddAll(tempLangProps, tempProps);
      assert map[] + properties.entries == properties.entries;
      assert map[] + fileEntries == fileEntries;
    }

    /** The per-language merge: for each ".properties" file, a fresh copy
        of the defaults with the file's entries laid over it. */
    method MergeLanguages(langFiles: seq<LangFile>)
      requires Separate()
      modifies this
      ensures properties == old(properties) && properties.entries == old(properties.entries)
      ensures LanguageView() == LanguageMaps(old(LanguageView()), properties.entries, langFiles)
      ensures Separate()
    {
      for i := 0 to |langFiles|
        invariant properties == old(properties) && properties.entries == old(properties.entries)
        invariant LanguageView() == LanguageMaps(old(LanguageView()), properties.entries, langFiles[..i])
        invariant Separate()
      {
        LanguageMapsStep(old(LanguageView()), properties.entries, langFiles, i);
        MergeLanguage(langFiles[i]);
      }
      assert langFiles[..|langFiles|] == langFiles;
    }

    /** One turn of the per-language merge. */
    method MergeLanguage(f: LangFile)
      requires Separate()
      modifies this
      ensures properties == old(properties) && properties.entries == old(properties.entries)
      ensures LanguageView()
           == if EndsWith(f.fileName, ".properties") && LanguageName(f.fileName).Some? then
                old(LanguageView())[LanguageName(f.fileName).value := properties.entries + f.entries]
              else old(LanguageView())
      ensures Separate()
    {
      if EndsWith(f.fileName, ".properties") {
        var tempProps := DefaultsWith(f.entries);
        var lang := LanguageName(f.fileName);
        LanguageOfPropertiesFile(f.fileName);
        ViewOfUpdate(languageProperties, lang.value, tempProps);
        languageProperties := languageProperties[lang.value := tempProps];
      }
    }

    /** getSortedKeys: the keys of one language in ascending order; asking
        for a language that has no map fails, as the null dereference does. */
    method GetSortedKeys(languageKey: string) returns (r: Result<seq<string>, string>)
      ensures languageKey !in languageProperties ==> r.Err?
      ensures languageKey in languageProperties ==>
        r.Ok? && StrictlySorted(r.value) &&
        (forall k :: k in r.value <==> k in languageProperties[languageKey].entries)
    {
      if languageKey !in languageProperties {
        return Err("NullPointerException");
      }
      var keys := languageProperties[languageKey].entries.Keys;
      var sortedKeyList: seq<string> := [];
      var rest := keys;
      while rest != {}
        invariant rest <= keys
        invariant forall k :: k in sortedKeyList <==> k in keys && k !in rest
        invariant forall i, j :: 0 <= i < j < |sortedKeyList| ==> sortedKeyList[i] != sortedKeyList[j]
        decreases rest
      {
        var k :| k in rest;
        sortedKeyList := sortedKeyList + [k];
        rest := rest - {k};
      }
      SortKeysSorted(sortedKeyList);
      var sorted := SortKeys(sortedKeyList);
      forall k
        ensures k in sorted <==> k in sortedKeyList
      {
        assert k in sorted <==> k in multiset(sorted);
        assert k in sortedKeyList <==> k in multiset(sortedKeyList);
      }
      return Ok(sorted);
    }
  }
}
