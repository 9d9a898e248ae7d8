/** The generator configuration: the menu items, the menu order and the
    admin-ignore list read from the configuration properties. */
module GeneratorConfig {
  import opened JavaText
  import opened Menus

  /** A configuration property: key and value. */
  type Entry = (string, string)

  /** properties.getProperty(key, dflt): the value of the entry with that
      key, or dflt. A Properties object holds each key once, and the entry
      list does not enforce that: where a key repeats, the model takes its
      first entry, a choice with no counterpart in the source. On entry
      lists with distinct keys, "the first entry" is "the entry". */
  function GetProperty(entries: seq<Entry>, key: string, dflt: string): (r: string)
    ensures (forall j :: 0 <= j < |entries| ==> entries[j].0 != key) ==> r == dflt
    ensures (exists j :: 0 <= j < |entries| && entries[j].0 == key) ==>
      exists j :: 0 <= j < |entries| && entries[j].0 == key && r == entries[j].1 &&
        forall i :: 0 <= i < j ==> entries[i].0 != key
  {
    if entries == [] then dflt
    else if entries[0].0 == key then entries[0].1
    else
      var r := GetProperty(entries[1..], key, dflt);
      assert forall j :: 0 < j < |entries| ==> entries[j] == entries[1..][j - 1];
      if exists j :: 0 <= j < |entries| && entries[j].0 == key then
        var j' :| 0 <= j' < |entries| - 1 && entries[1..][j'].0 == key && r == entries[1..][j'].1 &&
          forall i :: 0 <= i < j' ==> entries[1..][i].0 != key;
        assert entries[j' + 1].0 == key && r == entries[j' + 1].1;
        assert forall i :: 0 <= i < j' + 1 ==> entries[i].0 != key;
        r
      else r
  }

  predicate IsMenuKey(key: string)
  {
    LowerStartsWith(key, "menu.")
  }

  predicate IsIgnoreKey(key: string)
  {
    LowerStartsWith(key, "admin.ignore.")
  }

  /** The sub-items named by the pieces, in order, all with the default rank. */
  function SubItems(names: seq<string>): (r: seq<MenuItem>)
    ensures |r| == |names|
    ensures forall i :: 0 <= i < |names| ==> r[i] == NewItem(names[i])
  {
    if names == [] then [] else SubItems(names[..|names| - 1]) + [NewItem(names[|names| - 1])]
  }

  /** The item a "menu." entry describes: the key without its first five
      characters, with one sub-item per piece of the trimmed value. */
  function MenuOf(e: Entry): (r: MenuItem)
    requires IsMenuKey(e.0)
    ensures r.name == e.0[5..] && r.menuOrder == DEFAULT_RANK
    ensures r.subMenus == SubItems(JavaSplit(Trim(e.1), ','))
  {
    MenuItem(e.0[5..], SubItems(JavaSplit(Trim(e.1), ',')), DEFAULT_RANK)
  }

  /** The items parseMenus builds, in entry order. */
  function MenusOf(entries: seq<Entry>): seq<MenuItem>
  {
    if entries == [] then []
    else
      var last := entries[|entries| - 1];
      MenusOf(entries[..|entries| - 1]) + (if IsMenuKey(last.0) then [MenuOf(last)] else [])
  }

  /** The ignore list parseAdminIgnores builds, in entry order. */
  function IgnoresOf(entries: seq<Entry>): seq<string>
  {
    if entries == [] then []
    else
      var last := entries[|entries| - 1];
      IgnoresOf(entries[..|entries| - 1]) + (if IsIgnoreKey(last.0) then [Trim(last.1)] else [])
  }

  function TrimAll(pieces: seq<string>): (r: seq<string>)
    ensures |r| == |pieces|
    ensures forall i :: 0 <= i < |pieces| ==> r[i] == Trim(pieces[i])
  {
    if pieces == [] then [] else TrimAll(pieces[..|pieces| - 1]) + [Trim(pieces[|pieces| - 1])]
  }

  /** The order list parseMenuOrder builds. */
  function MenuOrderOf(entries: seq<Entry>): seq<string>
  {
    var menuOrder := GetProperty(entries, "menuorder", "");
    if menuOrder == "" then [] else TrimAll(JavaSplit(menuOrder, ','))
  }

  /** Every "menu." entry yields exactly one item, built from that entry, and
      the items follow the entries' order. */
  lemma {:induction false} MenusFollowMenuKeys(entries: seq<Entry>, j: nat)
    requires j < |entries| && IsMenuKey(entries[j].0)
    ensures var k := |MenusOf(entries[..j])|;
      k < |MenusOf(entries)| && MenusOf(entries)[k] == MenuOf(entries[j])
    decreases |entries|
  {
    var init := entries[..|entries| - 1];
    if j == |entries| - 1 {
      assert entries[..j] == init;
    } else {
      assert init[..j] == entries[..j] && init[j] == entries[j];
      MenusFollowMenuKeys(init, j);
    }
  }

  /** Only "menu." entries yield items: there are exactly as many items as
      entries whose lower-case key starts with "menu.". */
  function CountMenuKeys(entries: seq<Entry>): nat
  {
    if entries == [] then 0
    else CountMenuKeys(entries[..|entries| - 1]) + (if IsMenuKey(entries[|entries| - 1].0) then 1 else 0)
  }

  lemma {:induction false} MenusCountMenuKeys(entries: seq<Entry>)
    ensures |MenusOf(entries)| == CountMenuKeys(entries)
  {
    if entries != [] {
      MenusCountMenuKeys(entries[..|entries| - 1]);
    }
  }

  /** The menuorder key is not a menu key, so it never yields an item. */
  lemma MenuOrderKeyIsNoMenu()
    ensures !IsMenuKey("menuorder")
  {
    FifthCharNotDot("menuorder");
  }

  /** A key whose fifth character does not fold to '.' is no menu key. */
  lemma FifthCharNotDot(key: string)
    requires |key| >= 5 && LowerChar(key[4]) != '.'
    ensures !IsMenuKey(key)
  {
    var l := ToLower(key);
    assert l[..5][4] == l[4] == LowerChar(key[4]);
  }

  /** A missing or empty menuorder gives no order; otherwise one trimmed
      name per comma piece, in order. */
  lemma MenuOrderPieces(entries: seq<Entry>)
    ensures GetProperty(entries, "menuorder", "") == "" ==> MenuOrderOf(entries) == []
    ensures var v := GetProperty(entries, "menuorder", "");
      v != "" ==>
        |MenuOrderOf(entries)| == |JavaSplit(v, ',')| &&
        forall i :: 0 <= i < |JavaSplit(v, ',')| ==> MenuOrderOf(entries)[i] == Trim(JavaSplit(v, ',')[i])
  {
  }

  lemma SubItemsStep(names: seq<string>, j: nat)
    requires j < |names|
    ensures SubItems(names[..j + 1]) == SubItems(names[..j]) + [NewItem(names[j])]
  {
    assert names[..j + 1][..j] == names[..j];
  }

  lemma TrimAllStep(pieces: seq<string>, i: nat)
    requires i < |pieces|
    ensures TrimAll(pieces[..i + 1]) == TrimAll(pieces[..i]) + [Trim(pieces[i])]
  {
    assert pieces[..i + 1][..i] == pieces[..i];
  }

  /** The item for one "menu." entry, its sub-items added one by one. */
  method BuildMenuItem(key: string, value: string) returns (menuItem: MenuItem)
    requires IsMenuKey(key)
    ensures menuItem == MenuOf((key, value))
  {
    var name := key[5..];
    menuItem := NewItem(name);
    var split := JavaSplit(Trim(value), ',');
    for j := 0 to |split|
      invariant menuItem == MenuItem(name, SubItems(split[..j]), DEFAULT_RANK)
    {
      SubItemsStep(split, j);
      menuItem := AddSubMenu(menuItem, NewItem(split[j]));
    }
    assert split[..|split|] == split;
  }

  class Config {
    /** The configuration properties, in key-set iteration order. */
    const config: seq<Entry>
    var menus: seq<MenuItem>
    var menusInOrder: seq<string>
    var adminIgnores: seq<string>

    constructor (config: seq<Entry>)
      ensures this.config == config
      ensures adminIgnores == IgnoresOf(config)
      ensures menus == MenusOf(config)
      ensures menusInOrder == MenuOrderOf(config)
    {
      this.config := config;
      menus := [];
      menusInOrder := [];
      adminIgnores := [];
      new;
      ParseAdminIgnores();
      ParseMenus();
      ParseMenuOrder();
    }

    method ParseMenus()
      modifies this
      ensures menus == old(menus) + MenusOf(config)
      ensures menusInOrder == old(menusInOrder) && adminIgnores == old(adminIgnores)
    {
      for i := 0 to |config|
        invariant menus == old(menus) + MenusOf(config[..i])
        invariant menusInOrder == old(menusInOrder) && adminIgnores == old(adminIgnores)
      {
        assert config[..i + 1][..i] == config[..i];
        assert MenusOf(config[..i + 1])
            == MenusOf(config[..i]) + (if IsMenuKey(config[i].0) then [MenuOf(config[i])] else []);
        var key := config[i].0;
        if LowerStartsWith(key, "menu.") {
          var menuItem := BuildMenuItem(key, config[i].1);
          menus := menus + [menuItem];
        }
      }
      assert config[..|config|] == config;
    }

    method ParseMenuOrder()
      modifies this
      ensures menusInOrder == old(menusInOrder) + MenuOrderOf(config)
      ensures menus == old(menus) && adminIgnores == old(adminIgnores)
    {
      var menuOrder := GetProperty(config, "menuorder", "");
      if menuOrder != "" {
        var pieces := JavaSplit(menuOrder, ',');
        for i := 0 to |pieces|
          invariant menusInOrder == old(menusInOrder) + TrimAll(pieces[..i])
          invariant menus == old(menus) && adminIgnores == old(adminIgnores)
        {
          TrimAllStep(pieces, i);
          menusInOrder := menusInOrder + [Trim(pieces[i])];
        }
        assert pieces[..|pieces|] == pieces;
      }
    }

    method ParseAdminIgnores()
      modifies this
      ensures adminIgnores == old(adminIgnores) + IgnoresOf(config)
      ensures menus == old(menus) && menusInOrder == old(menusInOrder)
    {
      for i := 0 to |config|
        invariant adminIgnores == old(adminIgnores) + IgnoresOf(config[..i])
        invariant menus == old(menus) && menusInOrder == old(menusInOrder)
      {
        assert config[..i + 1][..i] == config[..i];
        assert IgnoresOf(config[..i + 1])
            == IgnoresOf(config[..i]) + (if IsIgnoreKey(config[i].0) then [Trim(config[i].1)] else []);
        var key := config[i].0;
        if LowerStartsWith(key, "admin.ignore.") {
          adminIgnores := adminIgnores + [Trim(config[i].1)];
        }
      }
      assert config[..|config|] == config;
    }

    /** shouldIgnoreInAdmin: exact, case-sensitive membership. */
    method ShouldIgnoreInAdmin(tableName: string) returns (b: bool)
      ensures b <==> exists i :: 0 <= i < |adminIgnores| && adminIgnores[i] == tableName
    {
      b := false;
      for i := 0 to |adminIgnores|
        invariant b <==> exists j :: 0 <= j < i && adminIgnores[j] == tableName
      {
        if adminIgnores[i] == tableName {
          b := true;
        }
      }
    }
  }
}
