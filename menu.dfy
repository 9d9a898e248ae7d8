/** The admin menu: top-level items, each with sub-items, ranked for
    display. Menu owns the list of top-level items and changes it in place;
    MenuItem is modelled as a value. */
module Menus {
  import opened Wrappers
  import opened JavaText
  import opened Schema
  import opened StableSort

  const INT_MIN: int := -0x8000_0000
  const INT_MAX: int := 0x7fff_ffff

  /** The rank of a new item: Integer.MAX_VALUE - 100 (0 is the highest). */
  const DEFAULT_RANK: int := INT_MAX - 100

  datatype MenuItem = MenuItem(name: string, subMenus: seq<MenuItem>, menuOrder: int)

  /** new MenuItem(name). */
  function NewItem(name: string): (r: MenuItem)
    ensures r.name == name && r.subMenus == [] && r.menuOrder == DEFAULT_RANK
  {
    MenuItem(name, [], DEFAULT_RANK)
  }

  /** addSubMenu: appends at the end, leaving the earlier sub-items. */
  function AddSubMenu(m: MenuItem, sub: MenuItem): (r: MenuItem)
    ensures r.subMenus == m.subMenus + [sub]
    ensures r.name == m.name && r.menuOrder == m.menuOrder
  {
    m.(subMenus := m.subMenus + [sub])
  }

  /** setMenuOrder: the rank is the value last set; name and sub-items stay. */
  function SetMenuOrder(m: MenuItem, order: int): (r: MenuItem)
    ensures r.menuOrder == order
    ensures r.name == m.name && r.subMenus == m.subMenus
  {
    m.(menuOrder := order)
  }

  function Rank(m: MenuItem): int
  {
    m.menuOrder
  }

  /** contains(t): the item or one of its sub-items, at any depth, is
      named t ignoring case. */
  predicate Contains(m: MenuItem, tableName: string)
    decreases m
  {
    EqualsIgnoreCase(m.name, tableName) ||
    exists j :: 0 <= j < |m.subMenus| && Contains(m.subMenus[j], tableName)
  }

  /** The lower-case names of an item and all its sub-items. */
  function LowerNames(m: MenuItem): set<string>
    decreases m
  {
    {ToLower(m.name)} +
    (set j, x | 0 <= j < |m.subMenus| && x in LowerNames(m.subMenus[j]) :: x)
  }

  /** contains is a case-insensitive search of the whole tree. */
  lemma {:induction false} ContainsIffLowerName(m: MenuItem, tableName: string)
    ensures Contains(m, tableName) <==> ToLower(tableName) in LowerNames(m)
    decreases m
  {
    EqualsIgnoreCaseIffLower(m.name, tableName);
    forall j | 0 <= j < |m.subMenus|
      ensures Contains(m.subMenus[j], tableName) <==> ToLower(tableName) in LowerNames(m.subMenus[j])
    {
      ContainsIffLowerName(m.subMenus[j], tableName);
    }
    if ToLower(tableName) in LowerNames(m) && ToLower(tableName) != ToLower(m.name) {
      var j, x :| 0 <= j < |m.subMenus| && x in LowerNames(m.subMenus[j]) && x == ToLower(tableName);
      assert Contains(m.subMenus[j], tableName);
    }
  }

  /** After addSubMenu(sub) the item contains exactly what it contained
      before plus what sub contains. */
  lemma AddSubMenuContains(m: MenuItem, sub: MenuItem, tableName: string)
    ensures Contains(AddSubMenu(m, sub), tableName) <==> Contains(m, tableName) || Contains(sub, tableName)
  {
    var r := AddSubMenu(m, sub);
    assert r.subMenus[|m.subMenus|] == sub;
    if Contains(m, tableName) && !EqualsIgnoreCase(m.name, tableName) {
      var j :| 0 <= j < |m.subMenus| && Contains(m.subMenus[j], tableName);
      assert r.subMenus[j] == m.subMenus[j];
    }
    if Contains(r, tableName) && !EqualsIgnoreCase(m.name, tableName) {
      var j :| 0 <= j < |r.subMenus| && Contains(r.subMenus[j], tableName);
      if j < |m.subMenus| {
        assert r.subMenus[j] == m.subMenus[j];
      }
    }
  }

  /** Java's 32-bit int subtraction, which wraps around. */
  function Sub32(a: int, b: int): (r: int)
    requires INT_MIN <= a <= INT_MAX && INT_MIN <= b <= INT_MAX
    ensures INT_MIN <= r <= INT_MAX
    ensures (r - (a - b)) % 0x1_0000_0000 == 0
  {
    var d := a - b;
    if d > INT_MAX then d - 0x1_0000_0000
    else if d < INT_MIN then d + 0x1_0000_0000
    else d
  }

  /** compareTo: getMenuOrder() - other.getMenuOrder() in int arithmetic. */
  function CompareTo(m: MenuItem, other: MenuItem): int
    requires INT_MIN <= m.menuOrder <= INT_MAX && INT_MIN <= other.menuOrder <= INT_MAX
  {
    Sub32(m.menuOrder, other.menuOrder)
  }

  /** For ranks that are not negative (list indices or the default rank)
      compareTo has the sign of the rank difference, so Collections.sort
      orders by rank. */
  lemma CompareToAgreesWithRank(m: MenuItem, other: MenuItem)
    requires 0 <= m.menuOrder <= INT_MAX && 0 <= other.menuOrder <= INT_MAX
    ensures CompareTo(m, other) < 0 <==> Rank(m) < Rank(other)
    ensures CompareTo(m, other) == 0 <==> Rank(m) == Rank(other)
    ensures CompareTo(m, other) > 0 <==> Rank(m) > Rank(other)
  {
  }

  /** With a negative rank the subtraction can wrap: rank INT_MIN compares
      as greater than rank 1. */
  lemma CompareToWrapsForNegativeRanks()
    ensures CompareTo(MenuItem("a", [], INT_MIN), MenuItem("b", [], 1)) > 0
  {
  }

  /** getSubMenus: sorts the sub-items in place, stably, by rank. */
  function SortSubMenus(m: MenuItem): (r: MenuItem)
    ensures r.name == m.name && r.menuOrder == m.menuOrder
    ensures multiset(r.subMenus) == multiset(m.subMenus)
  {
    m.(subMenus := Sort(m.subMenus, Rank))
  }

  /** getSubMenus leaves the sub-items sorted by rank, stably. */
  lemma SortSubMenusSorted(m: MenuItem, k: int)
    ensures SortedBy(SortSubMenus(m).subMenus, Rank)
    ensures WithKey(SortSubMenus(m).subMenus, Rank, k) == WithKey(m.subMenus, Rank, k)
  {
    SortIsSorted(m.subMenus, Rank);
    SortIsStable(m.subMenus, Rank, k);
  }

  /** Sub-items that all have the default rank keep their insertion order. */
  lemma SortSubMenusKeepsDefaultOrder(m: MenuItem)
    requires forall j :: 0 <= j < |m.subMenus| ==> m.subMenus[j].menuOrder == DEFAULT_RANK
    ensures SortSubMenus(m) == m
  {
    SortOneKeyIsIdentity(m.subMenus, Rank, DEFAULT_RANK);
  }

  /** The tables merge leaves out: admin-ignored (exact name), labelled
      hiddenjointable or nomanager, or named JackHistory ignoring case. */
  predicate Skipped(t: Table, adminIgnores: seq<string>)
  {
    t.name in adminIgnores || HasLabel(t.settings, "hiddenjointable") ||
    HasLabel(t.settings, "nomanager") || EqualsIgnoreCase(t.name, "JackHistory")
  }

  /** Some top-level item contains the table. */
  predicate InMenu(menus: seq<MenuItem>, tableName: string)
  {
    exists i :: 0 <= i < |menus| && Contains(menus[i], tableName)
  }

  /** The item merge synthesises for a table: its name, with one sub-item
      of the same name. */
  function TableItem(name: string): (r: MenuItem)
    ensures r.name == name && r.menuOrder == DEFAULT_RANK
    ensures r.subMenus == [NewItem(name)]
  {
    AddSubMenu(NewItem(name), NewItem(name))
  }

  /** One turn of merge. */
  function MergeStep(menus: seq<MenuItem>, t: Table, adminIgnores: seq<string>): seq<MenuItem>
  {
    if Skipped(t, adminIgnores) || InMenu(menus, t.name) then menus
    else menus + [TableItem(t.name)]
  }

  /** The list merge leaves, tables taken in order. */
  function Merged(menus: seq<MenuItem>, tables: seq<Table>, adminIgnores: seq<string>): seq<MenuItem>
    decreases |tables|
  {
    if tables == [] then menus
    else Merged(MergeStep(menus, tables[0], adminIgnores), tables[1..], adminIgnores)
  }

  lemma InMenuAppend(menus: seq<MenuItem>, extra: seq<MenuItem>, tableName: string)
    requires InMenu(menus, tableName)
    ensures InMenu(menus + extra, tableName)
  {
    var i :| 0 <= i < |menus| && Contains(menus[i], tableName);
    assert (menus + extra)[i] == menus[i];
  }

  lemma {:induction false} MergedIsPrefixed(menus: seq<MenuItem>, tables: seq<Table>, adminIgnores: seq<string>)
    ensures |menus| <= |Merged(menus, tables, adminIgnores)|
    ensures Merged(menus, tables, adminIgnores)[..|menus|] == menus
    decreases |tables|
  {
    if tables != [] {
      var next := MergeStep(menus, tables[0], adminIgnores);
      MergedIsPrefixed(next, tables[1..], adminIgnores);
      assert next[..|menus|] == menus;
    }
  }

  /** The item is the synthesised item of a table merge does not skip. */
  ghost predicate FromTable(item: MenuItem, tables: seq<Table>, adminIgnores: seq<string>)
  {
    exists j :: 0 <= j < |tables| && !Skipped(tables[j], adminIgnores) && item == TableItem(tables[j].name)
  }

  /** merge only appends: the items already there keep their place, and
      every new item is the synthesised item of a table merge does not skip. */
  lemma {:induction false} MergeOnlyAppends(menus: seq<MenuItem>, tables: seq<Table>, adminIgnores: seq<string>)
    ensures var r := Merged(menus, tables, adminIgnores);
      |menus| <= |r| && r[..|menus|] == menus &&
      forall k :: |menus| <= k < |r| ==> FromTable(r[k], tables, adminIgnores)
    decreases |tables|
  {
    MergedIsPrefixed(menus, tables, adminIgnores);
    if tables != [] {
      var next := MergeStep(menus, tables[0], adminIgnores);
      MergeOnlyAppends(next, tables[1..], adminIgnores);
      var r := Merged(menus, tables, adminIgnores);
      assert r == Merged(next, tables[1..], adminIgnores);
      MergedIsPrefixed(next, tables[1..], adminIgnores);
      forall k | |menus| <= k < |r|
        ensures FromTable(r[k], tables, adminIgnores)
      {
        if k < |next| {
          assert r[k] == next[k];
          assert !Skipped(tables[0], adminIgnores) && r[k] == TableItem(tables[0].name);
        } else {
          assert FromTable(r[k], tables[1..], adminIgnores);
          var j :| 0 <= j < |tables[1..]| && !Skipped(tables[1..][j], adminIgnores) && r[k] == TableItem(tables[1..][j].name);
          assert tables[1..][j] == tables[j + 1];
        }
      }
    }
  }

  /** After merge every table it does not skip is in the menu. */
  lemma {:induction false} MergeCoversTables(menus: seq<MenuItem>, tables: seq<Table>, adminIgnores: seq<string>)
    ensures forall j :: 0 <= j < |tables| && !Skipped(tables[j], adminIgnores) ==>
      InMenu(Merged(menus, tables, adminIgnores), tables[j].name)
    decreases |tables|
  {
    if tables != [] {
      var next := MergeStep(menus, tables[0], adminIgnores);
      MergeCoversTables(next, tables[1..], adminIgnores);
      var r := Merged(menus, tables, adminIgnores);
      forall j | 0 <= j < |tables| && !Skipped(tables[j], adminIgnores)
        ensures InMenu(r, tables[j].name)
      {
        if j == 0 {
          if !InMenu(menus, tables[0].name) {
            var item := TableItem(tables[0].name);
            assert next[|menus|] == item;
            assert EqualsIgnoreCase(item.name, tables[0].name);
            assert InMenu(next, tables[0].name);
          }
          MergedIsPrefixed(next, tables[1..], adminIgnores);
          var i :| 0 <= i < |next| && Contains(next[i], tables[0].name);
          assert r[..|next|][i] == next[i];
        } else {
          assert tables[1..][j - 1] == tables[j];
        }
      }
    }
  }

  /** A table already in the menu adds nothing: when every table merge
      does not skip is already in the menu, merge changes nothing. */
  lemma {:induction false} MergeOfCoveredIsNoop(menus: seq<MenuItem>, tables: seq<Table>, adminIgnores: seq<string>)
    requires forall j :: 0 <= j < |tables| && !Skipped(tables[j], adminIgnores) ==> InMenu(menus, tables[j].name)
    ensures Merged(menus, tables, adminIgnores) == menus
    decreases |tables|
  {
    if tables != [] {
      assert MergeStep(menus, tables[0], adminIgnores) == menus;
      forall j | 0 <= j < |tables[1..]| && !Skipped(tables[1..][j], adminIgnores)
        ensures InMenu(menus, tables[1..][j].name)
      {
        assert tables[1..][j] == tables[j + 1];
      }
      MergeOfCoveredIsNoop(menus, tables[1..], adminIgnores);
    }
  }

  /** Merging the same tables twice gives the same menu as merging once. */
  lemma MergeIsIdempotent(menus: seq<MenuItem>, tables: seq<Table>, adminIgnores: seq<string>)
    ensures Merged(Merged(menus, tables, adminIgnores), tables, adminIgnores) == Merged(menus, tables, adminIgnores)
  {
    MergeCoversTables(menus, tables, adminIgnores);
    MergeOfCoveredIsNoop(Merged(menus, tables, adminIgnores), tables, adminIgnores);
  }

  /** findMenuItem: the first top-level item whose name is exactly name. */
  function FirstNamed(menus: seq<MenuItem>, name: string): (r: Option<nat>)
    ensures r.Some? ==> r.value < |menus| && menus[r.value].name == name &&
                        forall j :: 0 <= j < r.value ==> menus[j].name != name
    ensures r.None? ==> forall j :: 0 <= j < |menus| ==> menus[j].name != name
  {
    if menus == [] then None
    else if menus[0].name == name then Some(0)
    else
      var k := FirstNamed(menus[1..], name);
      if k.Some? then Some(k.value + 1) else None
  }

  /** Items whose names are pairwise equal, position by position. */
  predicate SameNames(a: seq<MenuItem>, b: seq<MenuItem>)
  {
    |a| == |b| && forall k :: 0 <= k < |a| ==> a[k].name == b[k].name && a[k].subMenus == b[k].subMenus
  }

  lemma FirstNamedOfSameNames(a: seq<MenuItem>, b: seq<MenuItem>, name: string)
    requires SameNames(a, b)
    ensures FirstNamed(a, name) == FirstNamed(b, name)
  {
  }

  /** One turn of order: the first item called name takes rank i. */
  function OrderStep(menus: seq<MenuItem>, name: string, i: int): (r: seq<MenuItem>)
    ensures SameNames(menus, r)
    ensures forall k :: 0 <= k < |r| ==>
      r[k].menuOrder == if FirstNamed(menus, name) == Some(k) then i else menus[k].menuOrder
  {
    var k := FirstNamed(menus, name);
    if k.Some? then menus[k.value := SetMenuOrder(menus[k.value], i)] else menus
  }

  /** The list order leaves after the names from index i on are handled. */
  function Ordered(menus: seq<MenuItem>, names: seq<string>, i: nat): (r: seq<MenuItem>)
    requires i <= |names|
    ensures SameNames(menus, r)
    decreases |names| - i
  {
    if i == |names| then menus
    else Ordered(OrderStep(menus, names[i], i), names, i + 1)
  }

  /** The last index j >= i at which name is listed. */
  function LastListed(names: seq<string>, name: string, i: nat): (r: Option<nat>)
    requires i <= |names|
    ensures r.Some? ==> i <= r.value < |names| && names[r.value] == name &&
                        forall j :: r.value < j < |names| ==> names[j] != name
    ensures r.None? ==> forall j :: i <= j < |names| ==> names[j] != name
    decreases |names| - i
  {
    if i == |names| then None
    else
      var later := LastListed(names, name, i + 1);
      if later.Some? then later
      else if names[i] == name then Some(i)
      else None
  }

  /** order: the first item with a listed name takes the index of the last
      listing of that name; every other item keeps its rank. */
  lemma {:induction false} OrderRanks(menus: seq<MenuItem>, names: seq<string>, i: nat, k: nat)
    requires i <= |names| && k < |menus|
    ensures var r := Ordered(menus, names, i);
      var last := LastListed(names, menus[k].name, i);
      r[k].menuOrder ==
        if FirstNamed(menus, menus[k].name) == Some(k) && last.Some? then last.value
        else menus[k].menuOrder
    decreases |names| - i
  {
    if i < |names| {
      var f := FirstNamed(menus, names[i]);
      var next := OrderStep(menus, names[i], i);
      FirstNamedOfSameNames(menus, next, menus[k].name);
      OrderRanks(next, names, i + 1, k);
      if f == Some(k) {
        assert names[i] == menus[k].name;
      } else if f.Some? && names[i] == menus[k].name {
        assert FirstNamed(menus, menus[k].name) != Some(k);
      }
    }
  }

  /** order gives only list indices or keeps the old rank, so ranks that
      were non-negative 32-bit values stay so. */
  lemma {:induction false} OrderKeepsRanksInRange(menus: seq<MenuItem>, names: seq<string>)
    requires |names| <= INT_MAX
    requires forall k :: 0 <= k < |menus| ==> 0 <= menus[k].menuOrder <= INT_MAX
    ensures var r := Ordered(menus, names, 0);
      forall k :: 0 <= k < |r| ==> 0 <= r[k].menuOrder <= INT_MAX
  {
    var r := Ordered(menus, names, 0);
    forall k | 0 <= k < |r|
      ensures 0 <= r[k].menuOrder <= INT_MAX
    {
      OrderRanks(menus, names, 0, k);
    }
  }

  /** getMenus leaves the list sorted by rank, as a permutation of the
      same items, with items of equal rank in their old order. */
  lemma GetMenusSortsStably(menus: seq<MenuItem>, k: int)
    ensures SortedBy(Sort(menus, Rank), Rank)
    ensures multiset(Sort(menus, Rank)) == multiset(menus)
    ensures WithKey(Sort(menus, Rank), Rank, k) == WithKey(menus, Rank, k)
  {
    SortIsSorted(menus, Rank);
    SortIsStable(menus, Rank, k);
  }

  class Menu {
    var menus: seq<MenuItem>

    /** A null list gives an empty menu; otherwise the list is used as is. */
    constructor (menus: Option<seq<MenuItem>>)
      ensures this.menus == if menus.Some? then menus.value else []
    {
      this.menus := if menus.Some? then menus.value else [];
    }

    method IsTableInMenu(t: Table) returns (b: bool)
      ensures b == InMenu(menus, t.name)
    {
      for i := 0 to |menus|
        invariant forall j :: 0 <= j < i ==> !Contains(menus[j], t.name)
      {
        if Contains(menus[i], t.name) {
          return true;
        }
      }
      return false;
    }

    /** merge: appends the synthesised item of each table that is neither
        skipped nor already in the menu; adminIgnores is the list
        shouldIgnoreInAdmin searches. */
    method Merge(tables: seq<Table>, adminIgnores: seq<string>)
      modifies this
      ensures menus == Merged(old(menus), tables, adminIgnores)
    {
      for i := 0 to |tables|
        invariant Merged(old(menus), tables, adminIgnores) == Merged(menus, tables[i..], adminIgnores)
      {
        var table := tables[i];
        assert tables[i..][0] == table && tables[i..][1..] == tables[i + 1..];
        if table.name in adminIgnores || HasLabel(table.settings, "hiddenjointable")
          || HasLabel(table.settings, "nomanager") || EqualsIgnoreCase(table.name, "JackHistory") {
          continue;
        }
        var present := IsTableInMenu(table);
        if !present {
          var menuItem := NewItem(table.name);
          menuItem := AddSubMenu(menuItem, NewItem(table.name));
          menus := menus + [menuItem];
        }
      }
    }

    method FindMenuItem(name: string) returns (r: Option<nat>)
      ensures r == FirstNamed(menus, name)
    {
      for i := 0 to |menus|
        invariant forall j :: 0 <= j < i ==> menus[j].name != name
      {
        if menus[i].name == name {
          return Some(i);
        }
      }
      return None;
    }

    /** order: the i-th listed name ranks its item i. */
    method Order(menusInOrder: seq<string>)
      modifies this
      ensures menus == Ordered(old(menus), menusInOrder, 0)
    {
      for i := 0 to |menusInOrder|
        invariant Ordered(old(menus), menusInOrder, 0) == Ordered(menus, menusInOrder, i)
      {
        ghost var before := menus;
        var found := FindMenuItem(menusInOrder[i]);
        if found.Some? {
          menus := menus[found.value := SetMenuOrder(menus[found.value], i)];
        }
        assert menus == OrderStep(before, menusInOrder[i], i);
      }
    }

    /** getMenus: sorts the list in place by rank and returns it. */
    method GetMenus() returns (r: seq<MenuItem>)
      modifies this
      ensures menus == Sort(old(menus), Rank) && r == menus
    {
      menus := Sort(menus, Rank);
      r := menus;
    }
  }
}
