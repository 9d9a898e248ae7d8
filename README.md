# Inform8-Plus: a verified model of the generator and the admin runtime

Inform8-Plus generates a PHP/JavaScript admin site from a database schema and
a generator configuration. This project models its core in Dafny and proves
properties of that model. The core has two halves.

The Java generator:

- the display-string parser (`{column}` and `{fk.column}` blocks become render
  elements);
- the menu and its items: merging the tables in, ranking, sorting;
- the generator configuration: `menu.*` items, `menuorder`, `admin.ignore.*`;
- the language generator: default entries per table and menu item, one
  entry map per language file, and `.properties` escaping;
- the configuration overlays that `Inform8.generate` and
  `PlusSqlFileParser.generate` lay over the tables (labels, properties, hidden
  columns, fk data members, HTML editors, order display, parent/child);
- reading CREATE TABLE statements and attaching foreign keys to both tables.

The PHP and JavaScript runtime of the generated site:

- the table definitions (`Table`, `TableDisplaySettings`,
  `TableMemberDisplaySettings`);
- the grid display settings (`DisplaySettings`, `ColumnAndOrder`);
- the ajax results (`RequestResult`, `OperationResult`);
- column ordering in `ui.js`;
- the data-model helpers in `admin-data-model.js`;
- the two JSON endpoints: the grid search (`jsongridrest.php`) and the
  calendar feed (`jsoncalendarrest.php`).

## Structure

- Objects the source updates in place are classes, with `modifies` clauses.
  These are `Menu`, `PlusGeneratorConfig`, `LanguageGenerator` and
  `Properties`, the overlaid table list, the PHP settings and result classes,
  the IQL query, and the page-side table definition in `orderColumns`.
- Each of their loops is proved against a specification function on values.
- Pure logic is functions and lemmas.
- Helper modules:
  - `Wrappers` holds `Option` and `Result`.
  - `JavaText` holds Java/JS string operations: `indexOf`, `String.split` with
    trailing empties dropped, JS/PHP split, `trim`, ASCII case folding.
  - `StableSort` is a stable insertion sort standing in for
    `Collections.sort` and `Array.prototype.sort`.
  - `Schema` holds the table, column, settings and foreign-key values the
    overlays act on.
- A null dereference or a read of `undefined` that would abort the source is
  an `Err` value.


## Model

| member | source | states |
|---|---|---|
| Render.GetType | Inform8-plus/src/com/eighty8/inform8/render/RenderElement.java:12-16 | each element kind reports its own render type, and only that kind reports it |
| Render.ToString | Inform8-plus/src/com/eighty8/inform8/render/TableMemberDisplayElement.java:29-32 | a plain string prints its text and a member element its column's name; no text (None) stands for two things: the NullPointerException of a member element holding a null column, and the foreign-key element's `Object.toString`, which is not modelled |
| DisplayParser.ChopFrom | Inform8-plus/src/com/eighty8/inform8/render/DisplayParser.java:64-70 | an index at or past the last character gives ""; otherwise the suffix from the index, at least two characters long |
| DisplayParser.MasterOf | Inform8-plus/src/com/eighty8/inform8/render/DisplayParser.java:45 | the master table of a link is a schema table of that name, or none exists |
| DisplayParser.Parser.constructor | Inform8-plus/src/com/eighty8/inform8/render/DisplayParser.java:25-28 | the parser keeps its context table and display string |
| DisplayParser.Parser.Parse | Inform8-plus/src/com/eighty8/inform8/render/DisplayParser.java:30-62 | the loop's element list equals the recursive reading `ParseFrom` of the display string, including its error outcomes |
| DisplayParser.Parser.NextTurn | Inform8-plus/src/com/eighty8/inform8/render/DisplayParser.java:35-59 | one pass of the loop body yields exactly the turn `Step` describes, errors included |
| DisplayParser.Step | Inform8-plus/src/com/eighty8/inform8/render/DisplayParser.java:35-59 | a successful turn leaves strictly shorter text; a plain element it emits is non-empty, holds no '{', and is followed by nothing or by that '{' |
| DisplayParser.NoBraceIsOnePlainString | Inform8-plus/src/com/eighty8/inform8/render/DisplayParser.java:55-59 | text without '{' becomes one plain element, and empty text none |
| DisplayParser.TextBeforeBrace | Inform8-plus/src/com/eighty8/inform8/render/DisplayParser.java:51-53 | the text before the first '{' is one plain element, and parsing resumes at the brace |
| DisplayParser.BlockTurn | Inform8-plus/src/com/eighty8/inform8/render/DisplayParser.java:36-50 | a `{x}` block yields the element for x, and parsing resumes after '}' (chopped as `chopFrom` does) |
| DisplayParser.MemberBlock | Inform8-plus/src/com/eighty8/inform8/render/DisplayParser.java:46-48 | a block without a dot past its first character becomes a member element holding `getColumn(x)`, null included |
| DisplayParser.OneTrailingCharacterDropped | Inform8-plus/src/com/eighty8/inform8/render/DisplayParser.java:49 | `{a}x` parses to the member alone: `chopFrom` drops a single character after a block |
| DisplayParser.FkBlockElement | Inform8-plus/src/com/eighty8/inform8/render/DisplayParser.java:41-45 | `{a.b...}` is a foreign-key element built from parts[0] and parts[1] of the split on '.' |
| DisplayParser.ForeignKeyBlock | Inform8-plus/src/com/eighty8/inform8/render/DisplayParser.java:43-45 | a dotted block whose first part is not a column, or is a column with no child foreign key, fails as the null dereference does |
| DisplayParser.UnterminatedBrace | Inform8-plus/src/com/eighty8/inform8/render/DisplayParser.java:38-40 | a '{' with no '}' after it fails (substring(0, -1)), except a lone trailing '{' after text, which is dropped |
| DisplayParser.StartsWithBlock | Inform8-plus/src/com/eighty8/inform8/render/DisplayParser.java:36-48 | a display starting with '{' never starts with a plain element |
| DisplayParser.ParseLength | Inform8-plus/src/com/eighty8/inform8/render/DisplayParser.java:34-60 | a successful parse has at most as many elements as the display has characters |
| DisplayParser.ParseIsWellFormed | Inform8-plus/src/com/eighty8/inform8/render/DisplayParser.java:34-60 | plain elements are never empty, never contain '{', and are never adjacent |
| Menus.NewItem | Inform8-plus/src/com/eighty8/inform8/menu/MenuItem.java:21-32 | a new item has its name, no sub-items and rank Integer.MAX_VALUE - 100 |
| Menus.AddSubMenu | Inform8-plus/src/com/eighty8/inform8/menu/MenuItem.java:41-43 | the sub-item is appended and everything else is kept |
| Menus.SetMenuOrder | Inform8-plus/src/com/eighty8/inform8/menu/MenuItem.java:76-78 | the rank becomes the value set; name and sub-items stay |
| Menus.ContainsIffLowerName | Inform8-plus/src/com/eighty8/inform8/menu/MenuItem.java:51-61 | `contains` holds exactly when the lower-cased table name is the lower-cased name of the item or of a sub-item at any depth |
| Menus.AddSubMenuContains | Inform8-plus/src/com/eighty8/inform8/menu/MenuItem.java:41-61 | after `addSubMenu(s)` the item contains a table exactly when it did before or s does |
| Menus.Sub32 | Inform8-plus/src/com/eighty8/inform8/menu/MenuItem.java:83 | the difference stays in the 32-bit range and agrees with the true difference modulo 2^32 |
| Menus.CompareToAgreesWithRank | Inform8-plus/src/com/eighty8/inform8/menu/MenuItem.java:82-84 | for non-negative ranks `compareTo` has the sign of the rank difference |
| Menus.CompareToWrapsForNegativeRanks | Inform8-plus/src/com/eighty8/inform8/menu/MenuItem.java:82-84 | with a negative rank the subtraction wraps: rank INT_MIN compares above rank 1 |
| Menus.SortSubMenus | Inform8-plus/src/com/eighty8/inform8/menu/MenuItem.java:35-38 | `getSubMenus` keeps the name, the rank and the multiset of sub-items |
| Menus.SortSubMenusSorted | Inform8-plus/src/com/eighty8/inform8/menu/MenuItem.java:35-38 | the sub-items end sorted by rank, and items of equal rank keep their order |
| Menus.SortSubMenusKeepsDefaultOrder | Inform8-plus/src/com/eighty8/inform8/menu/MenuItem.java:35-38 | sub-items that all have the default rank stay in insertion order |
| Menus.TableItem | Inform8-plus/src/com/eighty8/inform8/menu/Menu.java:35-36 | the item merge adds for a table has the table's name and one sub-item of the same name |
| Menus.MergeOnlyAppends | Inform8-plus/src/com/eighty8/inform8/menu/Menu.java:28-40 | merge keeps the existing items in place; every new item is the item of a table merge does not skip |
| Menus.MergeCoversTables | Inform8-plus/src/com/eighty8/inform8/menu/Menu.java:28-40 | after merge, every table that is not skipped is contained in some top-level item |
| Menus.MergeOfCoveredIsNoop | Inform8-plus/src/com/eighty8/inform8/menu/Menu.java:34-38 | when every table that is not skipped is already in the menu, merge changes nothing |
| Menus.MergeIsIdempotent | Inform8-plus/src/com/eighty8/inform8/menu/Menu.java:28-40 | merging the same tables twice gives the menu of one merge |
| Menus.FirstNamed | Inform8-plus/src/com/eighty8/inform8/menu/Menu.java:59-66 | the index of the first top-level item named exactly so, or none when no item is |
| Menus.Ordered | Inform8-plus/src/com/eighty8/inform8/menu/Menu.java:69-76 | `order` keeps every item's name and sub-items |
| Menus.LastListed | Inform8-plus/src/com/eighty8/inform8/menu/Menu.java:70 | the last index at which a name is listed, or none |
| Menus.OrderRanks | Inform8-plus/src/com/eighty8/inform8/menu/Menu.java:69-76 | the first item of a listed name gets the index of the name's last listing; every other item keeps its rank |
| Menus.OrderKeepsRanksInRange | Inform8-plus/src/com/eighty8/inform8/menu/Menu.java:69-76 | non-negative 32-bit ranks stay non-negative 32-bit ranks after `order` |
| Menus.GetMenusSortsStably | Inform8-plus/src/com/eighty8/inform8/menu/Menu.java:53-56 | `getMenus` gives a permutation sorted by rank, with equal ranks in their old order |
| Menus.Menu.constructor | Inform8-plus/src/com/eighty8/inform8/menu/Menu.java:22-25 | a null list gives an empty menu; otherwise the list given |
| Menus.Menu.IsTableInMenu | Inform8-plus/src/com/eighty8/inform8/menu/Menu.java:43-50 | true exactly when some top-level item contains the table |
| Menus.Menu.Merge | Inform8-plus/src/com/eighty8/inform8/menu/Menu.java:28-40 | the menu becomes `Merged` of the old menu: tables that are admin-ignored, labelled hiddenjointable or nomanager, or named JackHistory in any case are skipped |
| Menus.Menu.FindMenuItem | Inform8-plus/src/com/eighty8/inform8/menu/Menu.java:59-66 | the loop finds `FirstNamed` |
| Menus.OrderStep | Inform8-plus/src/com/eighty8/inform8/menu/Menu.java:71-74 | one turn of the loop gives the first item of that name rank i, keeps every other rank, and changes no name or sub-item |
| Menus.Menu.Order | Inform8-plus/src/com/eighty8/inform8/menu/Menu.java:69-76 | the menu becomes `Ordered` of the old menu, whose ranks `OrderRanks` characterises |
| Menus.Menu.GetMenus | Inform8-plus/src/com/eighty8/inform8/menu/Menu.java:53-56 | the list is sorted in place by rank and returned |
| GeneratorConfig.GetProperty | Inform8-plus/src/com/eighty8/inform8/config/PlusGeneratorConfig.java:49 | a key with no entry gives the default; otherwise the value of the first entry with that key |
| GeneratorConfig.SubItems | Inform8-plus/src/com/eighty8/inform8/config/PlusGeneratorConfig.java:39-41 | one new sub-item per piece, in order |
| GeneratorConfig.MenuOf | Inform8-plus/src/com/eighty8/inform8/config/PlusGeneratorConfig.java:36-42 | a `menu.` entry gives an item named by the key after its first five characters, with one sub-item per comma-separated piece of the trimmed value |
| GeneratorConfig.TrimAll | Inform8-plus/src/com/eighty8/inform8/config/PlusGeneratorConfig.java:52-54 | every piece is trimmed, in order |
| GeneratorConfig.MenusFollowMenuKeys | Inform8-plus/src/com/eighty8/inform8/config/PlusGeneratorConfig.java:33-45 | each entry whose key starts with `menu.` in any case yields its `MenuOf` item, in entry order |
| GeneratorConfig.MenusCountMenuKeys | Inform8-plus/src/com/eighty8/inform8/config/PlusGeneratorConfig.java:35-36 | there are exactly as many items as `menu.` keys |
| GeneratorConfig.MenuOrderKeyIsNoMenu | Inform8-plus/src/com/eighty8/inform8/config/PlusGeneratorConfig.java:36 | the `menuorder` key does not yield a menu item |
| GeneratorConfig.MenuOrderPieces | Inform8-plus/src/com/eighty8/inform8/config/PlusGeneratorConfig.java:48-56 | a missing or empty `menuorder` gives no order; otherwise the trimmed comma-separated pieces |
| GeneratorConfig.BuildMenuItem | Inform8-plus/src/com/eighty8/inform8/config/PlusGeneratorConfig.java:37-41 | the loop's item equals `MenuOf` of the entry |
| GeneratorConfig.Config.constructor | Inform8-plus/src/com/eighty8/inform8/config/PlusGeneratorConfig.java:24-30 | the ignore list, the menus and the menu order are those the three parse steps build from the configuration |
| GeneratorConfig.Config.ParseMenus | Inform8-plus/src/com/eighty8/inform8/config/PlusGeneratorConfig.java:33-45 | appends `MenusOf` the entries; the other lists are unchanged |
| GeneratorConfig.Config.ParseMenuOrder | Inform8-plus/src/com/eighty8/inform8/config/PlusGeneratorConfig.java:48-56 | appends `MenuOrderOf` the entries; the other lists are unchanged |
| GeneratorConfig.Config.ParseAdminIgnores | Inform8-plus/src/com/eighty8/inform8/config/PlusGeneratorConfig.java:58-65 | appends the trimmed value of each `admin.ignore.` key; the other lists are unchanged |
| GeneratorConfig.Config.ShouldIgnoreInAdmin | Inform8-plus/src/com/eighty8/inform8/config/PlusGeneratorConfig.java:88-90 | true exactly when the name is in the ignore list, compared case-sensitively |
| Schema.AddLabel | Inform8-plus/src/com/eighty8/inform8/Inform8.java:119 | the label is appended; earlier labels and all properties stay |
| Schema.AddProperty | Inform8-plus/src/com/eighty8/inform8/Inform8.java:126 | the key maps to the new value; other keys keep theirs and labels stay |
| Schema.TableIndex | Inform8-plus/src/com/eighty8/inform8/Inform8.java:173-180 | the first table whose name equals the given one ignoring case, or none |
| Schema.FindTable | Inform8-plus/etc/PlusSqlFileParser.java:258-265 | the loop returns the first table whose name matches ignoring case, or null; it equals `TableIndex` |
| Overlays.FieldPropertyOverlays | Inform8-plus/src/com/eighty8/inform8/Inform8.java:124-127 | one column-property record per configured property, in order, carrying its table, column, key (getLabel) and value (getProperty) |
| Overlays.TableLabelOverlays | Inform8-plus/src/com/eighty8/inform8/Inform8.java:130-133 | one table-label record per configured label, in order |
| Overlays.TablePropertyOverlays | Inform8-plus/src/com/eighty8/inform8/Inform8.java:136-139 | one table-property record per configured property, in order, carrying its table, key and value |
| Overlays.RemoveAt | Inform8-plus/src/com/eighty8/inform8/Inform8.java:117 | removing a column keeps the columns before it and shifts the rest down by one |
| Overlays.ApplyToTable | Inform8-plus/etc/PlusSqlFileParser.java:123-178 | a record keeps its table's name and every table label it had |
| Overlays.Apply | Inform8-plus/etc/PlusSqlFileParser.java:258-265 | a record naming no table fails; a successful one keeps every table's name, position and labels |
| Overlays.ApplyAllKeepsNames | Inform8-plus/etc/PlusSqlFileParser.java:120-179 | a run of records keeps the table list's names and order |
| Overlays.ApplyAllKeepsTableLabels | Inform8-plus/etc/PlusSqlFileParser.java:156-159 | a label a table carries before a run it still carries after it |
| Overlays.ApplyAllAppend | Inform8-plus/etc/PlusSqlFileParser.java:120-179 | running two record lists in turn is running their concatenation, stopping at the first failure |
| Overlays.ColumnLabelAdded | Inform8-plus/etc/PlusSqlFileParser.java:144-148 | a column label goes to the first column of that name of the first matching table, and to nothing else; a missing column fails |
| Overlays.HideRemovesColumn | Inform8-plus/src/com/eighty8/inform8/Inform8.java:114-117 | a hide record removes the first column of that name; a hide naming no column changes nothing |
| Overlays.HiddenColumnPropertyFails | Inform8-plus/src/com/eighty8/inform8/Inform8.java:113-127 | a property on a column a hide removed fails, when the table had one column of that name |
| Overlays.HideInListKeepsColumn | Inform8-plus/etc/PlusSqlFileParser.java:166-179 | a hidden-list record only clears the column's grid flag; a missing column fails |
| Overlays.TableSettingsOverlaid | Inform8-plus/etc/PlusSqlFileParser.java:156-164 | table labels and properties go into the settings of the first matching table |
| Overlays.UnknownTableFailsRun | Inform8-plus/etc/PlusSqlFileParser.java:168-172 | a run fails at its first record whose table is missing, with that table's name |
| Overlays.TableList.Find | Inform8-plus/etc/PlusSqlFileParser.java:258-265 | the search equals `TableIndex` |
| Overlays.TableList.ApplyOverlays | Inform8-plus/src/com/eighty8/inform8/Inform8.java:112-139 | one overlay loop leaves `ApplyAll` of the old tables, or fails with its error |
| Inform8Generation.FieldLabelOverlay | Inform8-plus/src/com/eighty8/inform8/Inform8.java:113-120 | a label equal to the HIDDEN label's text becomes a hide record; any other label becomes a column-label record |
| Inform8Generation.FieldLabelOverlays | Inform8-plus/src/com/eighty8/inform8/Inform8.java:112-121 | one record per column-label entry, in order |
| Inform8Generation.GeneratedCoversTables | Inform8-plus/src/com/eighty8/inform8/Inform8.java:110-144 | generation keeps table names and order, and every table that is not skipped ends in the menu |
| Inform8Generation.NomanagerLabelSkipsMerge | Inform8-plus/src/com/eighty8/inform8/Inform8.java:130-143 | a table the configuration labels nomanager is skipped by the menu merge, because labels are laid on before the merge |
| Inform8Generation.HiddenThenPropertyFails | Inform8-plus/src/com/eighty8/inform8/Inform8.java:113-127 | a hidden column followed by a property on it makes the run fail |
| Inform8Generation.Inform8.Generate | Inform8-plus/src/com/eighty8/inform8/Inform8.java:103-144 | the four overlay loops, then merge and order, give `Generated`: the overlaid tables and the ranked menu, or the first failure |
| SqlFileParser.CreateTableFragment | Inform8-plus/etc/PlusSqlFileParser.java:107-108 | a fragment exists exactly when the lower-cased statement contains "create table"; it is the suffix of the statement starting at the first such position: it starts with the phrase in any case and no earlier position does |
| SqlFileParser.FragmentsInOrder | Inform8-plus/etc/PlusSqlFileParser.java:105-111 | the fragments of concatenated statement lists are the concatenated fragments, and one statement gives its own fragment or none: the fragments are in statement order |
| SqlFileParser.FragmentsCountCreates | Inform8-plus/etc/PlusSqlFileParser.java:106-110 | there is one fragment per statement containing the phrase |
| SqlFileParser.SplitIgnoresQuotes | Inform8-plus/etc/PlusSqlFileParser.java:102 | the split on ';' also splits inside quoted text |
| SqlFileParser.AttachKey | Inform8-plus/etc/PlusSqlFileParser.java:115-118 | attaching a link keeps the table names; a missing base table, and then a missing other table, fails naming that table |
| SqlFileParser.AttachKeyBothSides | Inform8-plus/etc/PlusSqlFileParser.java:115-118 | a link ends on its base table and `opposite(link)` ends on its other table; every other table is unchanged |
| SqlFileParser.AttachAll | Inform8-plus/etc/PlusSqlFileParser.java:115-118 | attaching links keeps the table names and order |
| SqlFileParser.SqlOverlays | Inform8-plus/etc/PlusSqlFileParser.java:120-179 | one record per configured entry, in the generator's fixed order of lists |
| SqlFileParser.MissingFkDataMember | Inform8-plus/etc/PlusSqlFileParser.java:242-247 | the warning names exactly the tables for which the detail-link test holds and that have no fk data member |
| SqlFileParser.ParsedTables | Inform8-plus/etc/PlusSqlFileParser.java:108-109 | one parsed table per fragment, in order |
| SqlFileParser.GeneratedKeepsStatementTables | Inform8-plus/etc/PlusSqlFileParser.java:102-183 | a successful generation has one table per fragment, named as the parser names that fragment, in the fragments' (statement) order |
| SqlFileParser.PlusSqlFileParser.ReadTables | Inform8-plus/etc/PlusSqlFileParser.java:102-111 | the loop's table list equals `ParsedTables` of the fragments |
| SqlFileParser.PlusSqlFileParser.AttachForeignKeys | Inform8-plus/etc/PlusSqlFileParser.java:113-118 | the loop equals `AttachAll` |
| SqlFileParser.PlusSqlFileParser.Finish | Inform8-plus/etc/PlusSqlFileParser.java:181-183 | the configured menu merged with the overlaid tables and ordered, plus the warnings, is exactly `Finished` |
| SqlFileParser.PlusSqlFileParser.Warnings | Inform8-plus/etc/PlusSqlFileParser.java:242-247 | the loop prints `MissingFkDataMember` |
| SqlFileParser.PlusSqlFileParser.Generate | Inform8-plus/etc/PlusSqlFileParser.java:102-183 | the whole run equals `GeneratedFromSql`: parse, link, overlay, merge, order, warn |
| LanguageGenerator.PutAllValue | Inform8-plus/src/com/eighty8/inform8/lang/LanguageGenerator.java:125-131 | a key maps to the value of its last put, or keeps its old value when never put |
| LanguageGenerator.PutAllKeys | Inform8-plus/src/com/eighty8/inform8/lang/LanguageGenerator.java:125-131 | the keys after the puts are the old keys and every key put |
| LanguageGenerator.TableMessageEntries | Inform8-plus/src/com/eighty8/inform8/lang/LanguageGenerator.java:161-211 | the table's fixed message entries, key suffix and text for each |
| LanguageGenerator.ColumnEntries | Inform8-plus/src/com/eighty8/inform8/lang/LanguageGenerator.java:216-219 | two entries per column: its exploded name and an empty help text |
| LanguageGenerator.SubMenuEntries | Inform8-plus/src/com/eighty8/inform8/lang/LanguageGenerator.java:231-233 | one `SubMenu_` entry per sub-item, in order |
| LanguageGenerator.TableKeys | Inform8-plus/src/com/eighty8/inform8/lang/LanguageGenerator.java:155-221 | a table contributes `Tbl_T`, `__tab`, `__help`, its primary-key entry, and two entries per column |
| LanguageGenerator.TableKeysGenerated | Inform8-plus/src/com/eighty8/inform8/lang/LanguageGenerator.java:155-221 | every table of the list gets those keys |
| LanguageGenerator.ColumnKeysCanCollide | Inform8-plus/src/com/eighty8/inform8/lang/LanguageGenerator.java:214-217 | table `a_b` with column `c` and table `a` with column `b_c` produce the same key |
| LanguageGenerator.MenuKeysGenerated | Inform8-plus/src/com/eighty8/inform8/lang/LanguageGenerator.java:224-236 | every menu item gets a `Menu_` key and every sub-item a `SubMenu_` key |
| LanguageGenerator.LanguageOfPropertiesFile | Inform8-plus/src/com/eighty8/inform8/lang/LanguageGenerator.java:92 | the language of a `.properties` file is its name up to the first '.' |
| LanguageGenerator.LanguageIsDefaultsOverlaid | Inform8-plus/src/com/eighty8/inform8/lang/LanguageGenerator.java:73-93 | each language map holds the defaults with the file's entries laid over them: file entries win, and other keys keep their default |
| LanguageGenerator.SortKeys | Inform8-plus/src/com/eighty8/inform8/lang/LanguageGenerator.java:255 | sorting keeps the multiset of keys |
| LanguageGenerator.SortKeysSorted | Inform8-plus/src/com/eighty8/inform8/lang/LanguageGenerator.java:255 | distinct keys come out strictly ascending in `String.compareTo` order |
| LanguageGenerator.Properties.Put | Inform8-plus/src/com/eighty8/inform8/lang/LanguageGenerator.java:130 | the key is set to the value |
| LanguageGenerator.Properties.Load | Inform8-plus/src/com/eighty8/inform8/lang/LanguageGenerator.java:81 | the loaded entries are laid over the existing ones |
| LanguageGenerator.AddAll | Inform8-plus/src/com/eighty8/inform8/lang/LanguageGenerator.java:97-101 | `into` gains every entry of `from`, whose values win; `from` is unchanged |
| LanguageGenerator.Generator.constructor | Inform8-plus/src/com/eighty8/inform8/lang/LanguageGenerator.java:42-94 | the defaults are the base entries with the table entries and then the menu entries put over them; each language map is `LanguageMaps` of the files |
| LanguageGenerator.Generator.ReadDefaultEntries | Inform8-plus/src/com/eighty8/inform8/lang/LanguageGenerator.java:107-122 | the defaults become a fresh copy of the base entries |
| LanguageGenerator.Generator.AddEntry | Inform8-plus/src/com/eighty8/inform8/lang/LanguageGenerator.java:125-131 | the defaults map the key to the value |
| LanguageGenerator.Generator.AddEntries | Inform8-plus/src/com/eighty8/inform8/lang/LanguageGenerator.java:125-131 | a run of addEntry calls is `PutAll` of the run |
| LanguageGenerator.Generator.GenerateTableEntries | Inform8-plus/src/com/eighty8/inform8/lang/LanguageGenerator.java:155-221 | the defaults get every table's entries in table order |
| LanguageGenerator.Generator.AddMenuItemEntries | Inform8-plus/src/com/eighty8/inform8/lang/LanguageGenerator.java:228-233 | the item's `Menu_` entry, then its sorted sub-items' `SubMenu_` entries |
| LanguageGenerator.Generator.GenerateMenuEntries | Inform8-plus/src/com/eighty8/inform8/lang/LanguageGenerator.java:224-236 | the menu is sorted by rank, then every item's entries are put in that order |
| LanguageGenerator.Generator.DefaultsWith | Inform8-plus/src/com/eighty8/inform8/lang/LanguageGenerator.java:74-82 | a fresh map: the defaults with the file entries laid over them |
| LanguageGenerator.Generator.MergeLanguages | Inform8-plus/src/com/eighty8/inform8/lang/LanguageGenerator.java:73-93 | the language maps become `LanguageMaps` of the files; the defaults are left alone and shared with no language |
| LanguageGenerator.Generator.GetSortedKeys | Inform8-plus/src/com/eighty8/inform8/lang/LanguageGenerator.java:249-258 | an unknown language fails; otherwise exactly its keys, strictly ascending |
| PropertiesEscape.ToHex | Inform8-plus/src/com/eighty8/inform8/lang/LanguageGenerator.java:328-333 | an upper-case hex digit whose value is the nibble modulo 16 |
| PropertiesEscape.EscapeChar | Inform8-plus/src/com/eighty8/inform8/lang/LanguageGenerator.java:270-322 | one character becomes one to six characters, and at most two without Unicode escaping |
| PropertiesEscape.EscapeCharRules | Inform8-plus/src/com/eighty8/inform8/lang/LanguageGenerator.java:273-321 | printable characters above '=' are copied and the backslash doubled; a space is escaped at the start or when spaces are escaped; TAB, LF, CR, FF become `\t \n \r \f`; `= : # !` get a backslash; other control or non-ASCII characters are copied without Unicode escaping; the remaining printable characters are copied |
| PropertiesEscape.EscapeUnicodeDigits | Inform8-plus/src/com/eighty8/inform8/lang/LanguageGenerator.java:312-318 | with Unicode escaping, any other control or non-ASCII character becomes a backslash, `u` and four upper-case hex digits spelling its code, most significant nibble first |
| PropertiesEscape.HexRoundTrip | Inform8-plus/src/com/eighty8/inform8/lang/LanguageGenerator.java:315-318 | the four hex digits of a `\u` escape read back as the character's code |
| PropertiesEscape.LoadEscapeChar | Inform8-plus/src/com/eighty8/inform8/lang/LanguageGenerator.java:270-322 | reading back one escaped character gives that character |
| PropertiesEscape.LoadConvertUndoesEscaping | Inform8-plus/src/com/eighty8/inform8/lang/LanguageGenerator.java:261-325 | loading the escaped value gives the original value back |
| PropertiesEscape.EscapedLength | Inform8-plus/src/com/eighty8/inform8/lang/LanguageGenerator.java:262-267 | the output is at least the input length and at most 2 (or 6 with Unicode escaping) times it |
| PropertiesEscape.EscapedHasNoLineBreak | Inform8-plus/src/com/eighty8/inform8/lang/LanguageGenerator.java:292-299 | no raw LF or CR survives escaping |
| PropertiesEscape.EscapedUnicodeIsAscii | Inform8-plus/src/com/eighty8/inform8/lang/LanguageGenerator.java:312-318 | under Unicode escaping the output is printable ASCII only |
| PropertiesEscape.SpaceEscaping | Inform8-plus/src/com/eighty8/inform8/lang/LanguageGenerator.java:283-287 | a space is escaped exactly when it is first or escapeSpace is set |
| PropertiesEscape.SaveConvert | Inform8-plus/src/com/eighty8/inform8/lang/LanguageGenerator.java:261-325 | the loop's output equals `Escaped` of the input |
| TableDef.SearchLabels | Inform8-plus/php-src/config/lib/Inform8/tabledef/TableMemberDisplaySettings.php:46-53 | true exactly when some stored label equals the one asked for |
| TableDef.MemberDisplaySettings.constructor | Inform8-plus/php-src/config/lib/Inform8/tabledef/TableMemberDisplaySettings.php:23-28 | the four fields take the given values |
| TableDef.MemberDisplaySettings.AddLabel | Inform8-plus/php-src/config/lib/Inform8/tabledef/TableMemberDisplaySettings.php:38-40 | the label is appended; everything else is unchanged |
| TableDef.MemberDisplaySettings.AddProperty | Inform8-plus/php-src/config/lib/Inform8/tabledef/TableMemberDisplaySettings.php:42-44 | the key is set, overwriting; everything else is unchanged |
| TableDef.MemberDisplaySettings.HasLabel | Inform8-plus/php-src/config/lib/Inform8/tabledef/TableMemberDisplaySettings.php:46-53 | true exactly when the label was added or given |
| TableDef.TableDisplaySettings.constructor | Inform8-plus/output/dist/site/config/lib/Inform8/tabledef/TableDisplaySettings.php:16-19 | labels and properties take the given values |
| TableDef.TableDisplaySettings.AddLabel | Inform8-plus/output/dist/site/config/lib/Inform8/tabledef/TableDisplaySettings.php:21-23 | the label is appended; properties are unchanged |
| TableDef.TableDisplaySettings.AddProperty | Inform8-plus/output/dist/site/config/lib/Inform8/tabledef/TableDisplaySettings.php:25-27 | the key is set and `getProperty` then returns it; labels are unchanged |
| TableDef.TableDisplaySettings.GetProperty | Inform8-plus/output/dist/site/config/lib/Inform8/tabledef/TableDisplaySettings.php:29-31 | the stored value, or null for a key never set |
| TableDef.TableDisplaySettings.HasLabel | Inform8-plus/output/dist/site/config/lib/Inform8/tabledef/TableDisplaySettings.php:33-40 | true exactly when the label is stored |
| TableDef.Table.constructor | Inform8-plus/output/dist/site/config/lib/Inform8/tabledef/Table.php:18-24 | the fields take the given values and the member array is empty |
| TableDef.Table.AddMember | Inform8-plus/output/dist/site/config/lib/Inform8/tabledef/Table.php:26-28 | the member is stored under its name; other names are unaffected; a new name is appended to the key order and a known one keeps its place |
| TableDef.Table.GetMember | Inform8-plus/output/dist/site/config/lib/Inform8/tabledef/Table.php:34-36 | the member last stored under the name, or null |
| TableDef.Table.GetMembers | Inform8-plus/output/dist/site/config/lib/Inform8/tabledef/Table.php:30-32 | the stored members in insertion order of their names |
| DisplaySettingsModel.Switched | Inform8-plus/output/dist/site/config/lib/Inform8/displaysettings/DisplaySettings.php:41-47 | the result is asc or desc, and desc exactly when the old direction was asc |
| DisplaySettingsModel.SwitchTwice | Inform8-plus/output/dist/site/config/lib/Inform8/displaysettings/DisplaySettings.php:41-47 | switching twice restores asc or desc |
| DisplaySettingsModel.PrimaryOrdered | Inform8-plus/output/dist/site/config/lib/Inform8/displaysettings/DisplaySettings.php:97-110 | the clicked column comes first. A new column is ascending and the old primary moves to second place, over the old second; the primary column clicked again switches direction and the rest is kept |
| DisplaySettingsModel.PrimaryOrderedAtMostTwo | Inform8-plus/output/dist/site/config/lib/Inform8/displaysettings/DisplaySettings.php:97-110 | an ordering of at most two columns stays at one or two |
| DisplaySettingsModel.ThreeClicksAreOne | Inform8-plus/output/dist/site/config/lib/Inform8/displaysettings/DisplaySettings.php:97-110 | clicking a column three times leaves what one click leaves |
| DisplaySettingsModel.LaterChoiceIsPrimary | Inform8-plus/output/dist/site/config/lib/Inform8/displaysettings/DisplaySettings.php:97-110 | of two columns clicked in turn, the later is first and ascending and the earlier second |
| DisplaySettingsModel.ColumnAndOrder.constructor | Inform8-plus/output/dist/site/config/lib/Inform8/displaysettings/DisplaySettings.php:16-19 | a new column order is ascending |
| DisplaySettingsModel.ColumnAndOrder.SetAscending | Inform8-plus/output/dist/site/config/lib/Inform8/displaysettings/DisplaySettings.php:25-27 | ascending and not descending afterwards; the name is kept |
| DisplaySettingsModel.ColumnAndOrder.SetDescending | Inform8-plus/output/dist/site/config/lib/Inform8/displaysettings/DisplaySettings.php:29-31 | descending and not ascending afterwards; the name is kept |
| DisplaySettingsModel.ColumnAndOrder.SwitchOrder | Inform8-plus/output/dist/site/config/lib/Inform8/displaysettings/DisplaySettings.php:41-47 | ascending becomes descending and anything else ascending |
| DisplaySettingsModel.DisplaySettings.View | Inform8-plus/output/dist/site/config/lib/Inform8/displaysettings/DisplaySettings.php:112-114 | the ordering as (column, direction) values, entry by entry |
| DisplaySettingsModel.DisplaySettings.constructor | Inform8-plus/output/dist/site/config/lib/Inform8/displaysettings/DisplaySettings.php:65-71 | ENABLED, 50 per page, page 0, no ordering |
| DisplaySettingsModel.DisplaySettings.SetDisplayAll | Inform8-plus/output/dist/site/config/lib/Inform8/displaysettings/DisplaySettings.php:73-75 | exactly `isDisplayAll` holds afterwards; the rest is unchanged |
| DisplaySettingsModel.DisplaySettings.SetDisplayEnabled | Inform8-plus/output/dist/site/config/lib/Inform8/displaysettings/DisplaySettings.php:77-79 | exactly `isDisplayEnabled` holds afterwards; the rest is unchanged |
| DisplaySettingsModel.DisplaySettings.SetDisplayDisabled | Inform8-plus/output/dist/site/config/lib/Inform8/displaysettings/DisplaySettings.php:81-83 | exactly `isDisplayDisabled` holds afterwards; the rest is unchanged |
| DisplaySettingsModel.DisplaySettings.SetPrimaryOrder | Inform8-plus/output/dist/site/config/lib/Inform8/displaysettings/DisplaySettings.php:97-110 | the ordering becomes `PrimaryOrdered` of the old one; table, display mode, page size and page are unchanged |
| AjaxResults.DbFailureCases | Inform8-plus/php-src/config/lib/Inform8/ajax/RequestResult.php:60-68 | objects and arrays pass; an integer fails exactly when it is -1; null, true and "-1" fail; false passes |
| AjaxResults.OperationResult.constructor | Inform8-plus/php-src/config/lib/Inform8/ajax/OperationResult.php:16-24 | every field starts null |
| AjaxResults.OperationResult.SetPassed | Inform8-plus/php-src/config/lib/Inform8/ajax/OperationResult.php:26-29 | result 1, returns itself, other fields unchanged |
| AjaxResults.OperationResult.SetFailed | Inform8-plus/php-src/config/lib/Inform8/ajax/OperationResult.php:31-34 | result 0, returns itself, other fields unchanged |
| AjaxResults.RequestResult.constructor | Inform8-plus/php-src/config/lib/Inform8/ajax/RequestResult.php:19-30 | a null result, which is not passed, and no operation results |
| AjaxResults.RequestResult.SetPassed | Inform8-plus/php-src/config/lib/Inform8/ajax/RequestResult.php:32-35 | result 1 and passed; returns itself |
| AjaxResults.RequestResult.SetFailed | Inform8-plus/php-src/config/lib/Inform8/ajax/RequestResult.php:42-45 | result -1 and not passed; returns itself |
| AjaxResults.RequestResult.SetPartialFailure | Inform8-plus/php-src/config/lib/Inform8/ajax/RequestResult.php:47-50 | result 0 and not passed; returns itself |
| AjaxResults.RequestResult.AddOperationResult | Inform8-plus/php-src/config/lib/Inform8/ajax/RequestResult.php:52-54 | the operation result is appended; the result is unchanged |
| AjaxResults.NewFromDbObject | Inform8-plus/php-src/config/lib/Inform8/ajax/RequestResult.php:60-68 | a fresh result with no message or operations: -1 and not passed for null or a non-object loosely equal to -1, otherwise 1 and passed |
| AjaxResults.FromRequestResultAsWritten | Inform8-plus/php-src/config/lib/Inform8/ajax/OperationResult.php:39-46 | the function as written gives the caller null |
| AjaxResults.FromRequestResult | Inform8-plus/php-src/config/lib/Inform8/ajax/OperationResult.php:39-46 | a fresh operation result: 1 when the request passed, 0 otherwise |
| UiColumns.SortByRenderSettings | Inform8-plus/php-src/js/ui.js:15-17 | the comparator has the sign of the display-index difference |
| UiColumns.SortedSettings | Inform8-plus/php-src/js/ui.js:24-28 | missing settings become an empty array; present ones are permuted |
| UiColumns.SortedSettingsInIndexOrder | Inform8-plus/php-src/js/ui.js:24-25 | the settings end in display-index order, with equal indices in their old order |
| UiColumns.Named | Inform8-plus/php-src/js/ui.js:31-33 | one lookup per setting, in order, undefined for an unknown column name |
| UiColumns.AppendUnnamed | Inform8-plus/php-src/js/ui.js:35-46 | the named part stays a prefix, and only defined members are appended |
| UiColumns.AppendUnnamedNames | Inform8-plus/php-src/js/ui.js:35-46 | a name is in the result exactly when it was named already or belongs to a member |
| UiColumns.EveryMemberAppears | Inform8-plus/php-src/js/ui.js:20-48 | every member of the table appears in the ordered columns |
| UiColumns.NamedComeFirst | Inform8-plus/php-src/js/ui.js:31-33 | the columns named by the sorted render settings come first, in that order |
| UiColumns.MissingSettingsGiveMembers | Inform8-plus/php-src/js/ui.js:26-28 | with no render settings the columns are the members in key order |
| UiColumns.OrderedLength | Inform8-plus/php-src/js/ui.js:20-48 | with known column names there are as many columns as settings plus members not already named |
| UiColumns.FindName | Inform8-plus/php-src/js/ui.js:38-42 | reading `.name` of an undefined slot fails; otherwise whether some slot has that name |
| UiColumns.OrderColumns | Inform8-plus/php-src/js/ui.js:20-48 | the settings are replaced by their sorted form, the members are untouched, and the result is `OrderedColumns` |
| AdminDataModel.MemberAt | Inform8-plus/php-src/js/ui.js:32 | the value under a key, or undefined when no pair has that key |
| AdminDataModel.SplitTableAndMember | Inform8-plus/output/dist/site/js/admin-data-model.js:24-30 | neither part contains a dot |
| AdminDataModel.SplitTableAndMemberParts | Inform8-plus/output/dist/site/js/admin-data-model.js:24-30 | with no dot, the table is the whole text and the member undefined; otherwise the text before the first dot and the text between the first and second dots |
| AdminDataModel.SplitTableAndMemberRoundTrip | Inform8-plus/output/dist/site/js/admin-data-model.js:24-30 | joining a dot-free table and member with '.' and splitting gives them back |
| AdminDataModel.TypeClasses | Inform8-plus/output/dist/site/js/admin-data-model.js:32-55 | each type test is membership in its set of names; tinyint is both number and boolean; the fk test ignores the type |
| AdminDataModel.WithLabel | Inform8-plus/output/dist/site/js/admin-data-model.js:60-65 | every kept member carries the label, and every labelled member is kept |
| AdminDataModel.WithLabelInOrder | Inform8-plus/output/dist/site/js/admin-data-model.js:57-67 | the members of a concatenation give the concatenated results, and one member is kept exactly when it carries the label: member order is kept |
| AdminDataModel.WithLabelCounts | Inform8-plus/output/dist/site/js/admin-data-model.js:60-65 | a labelled member is kept as often as it occurs; others are dropped |
| AdminDataModel.TableColumnsWithLabel | Inform8-plus/output/dist/site/js/admin-data-model.js:57-67 | an unknown table fails; otherwise the loop gives `WithLabel` of its members |
| GridRest.Param | Inform8-plus/output/dist/site/jsongridrest.php:15-19 | a parameter is null exactly when absent |
| GridRest.SearchValue | Inform8-plus/output/dist/site/jsongridrest.php:19-34 | the value comes from the parameter the search type names; a boolean search gives 1 for "tru" and 0 otherwise |
| GridRest.BooleanSearchIgnoresTypedValues | Inform8-plus/output/dist/site/jsongridrest.php:26-31 | a boolean search ignores the typed value parameters and gives 0 or 1 |
| GridRest.WhereCondition | Inform8-plus/output/dist/site/jsongridrest.php:133-159 | the pattern options give LIKE with the right wildcards, the comparisons their operator, tru and fls "=" with 1 and 0, and anything else "=" with the value |
| GridRest.LikeOnlyForPatterns | Inform8-plus/output/dist/site/jsongridrest.php:133-159 | LIKE is used exactly for cnt, beg and end; a null option compares with "=" |
| GridRest.Query.constructor | Inform8-plus/output/dist/site/jsongridrest.php:90 | a new query has no conditions |
| GridRest.Query.Where | Inform8-plus/output/dist/site/jsongridrest.php:135 | the condition is appended |
| GridRest.AddWhereClause | Inform8-plus/output/dist/site/jsongridrest.php:133-159 | the query gains exactly `WhereCondition` of the arguments |
| GridRest.SelectField | Inform8-plus/output/dist/site/jsongridrest.php:91-94 | a field with a dot past its first character is replaced by its second dotted part: the text after the first dot up to the next dot or the end; any other field is kept |
| GridRest.CountFieldAsWrittenDropsPlainField | Inform8-plus/output/dist/site/jsongridrest.php:98-99 | for a plain field the count condition is on null while the select is on the field |
| GridRest.CountFieldAsWrittenDotted | Inform8-plus/output/dist/site/jsongridrest.php:91-99 | for a dotted field the count and the select agree |
| GridRest.PlanOf | Inform8-plus/output/dist/site/jsongridrest.php:59-100 | every record exactly when the field is ALL and the value loosely equals ALL (PHP 5: the integer 0 does); otherwise a join exactly when joinTable is non-empty, through that table with the request's joinField, otherJoinField, search value and search option; otherwise select and count share one `WhereCondition` on `SelectField` of the field |
| GridRest.FalseSearchOnAllListsEverything | Inform8-plus/output/dist/site/jsongridrest.php:26-31 | a boolean search for anything but `tru` on field ALL lists every record, because its value 0 loosely equals 'ALL' |
| GridRest.PlanOfAsWritten | Inform8-plus/output/dist/site/jsongridrest.php:98-99 | the count condition is on `$fields[1]` as written |
| GridRest.PlainFieldCountMismatch | Inform8-plus/output/dist/site/jsongridrest.php:95-99 | field=name, value=x, searchoption=cnt: the count filters a null field while the select filters `name` |
| GridRest.StartSteps | Inform8-plus/output/dist/site/jsongridrest.php:42 | page 1 starts at 0, and each page starts one limit after the previous |
| GridRest.CeilDiv | Inform8-plus/output/dist/site/jsongridrest.php:63 | the ceiling of the record count over the limit: for a positive limit the least page count holding all records, for a negative one at most 0 |
| GridRest.TotalPages | Inform8-plus/output/dist/site/jsongridrest.php:62-66 | no records, or a zero limit (false from the division, ceil gives 0), give 0 pages; for a positive limit, at least one page, the fewest that hold every record; for a negative limit, the ceiling of the negative quotient, which is at most 0 |
| GridRest.LastPageHoldsLastRecord | Inform8-plus/output/dist/site/jsongridrest.php:62-66 | the last page starts before the last record, and one page more would start past it |
| GridRest.ResponseOf | Inform8-plus/output/dist/site/jsongridrest.php:110-130 | a -1 result gives the zero response; otherwise page, total, records and one row per object in order |
| GridRest.JoinedObjects | Inform8-plus/output/dist/site/jsongridrest.php:80-88 | a -1 join result stays -1; otherwise one object per join row, in order |
| GridRest.BuildResponse | Inform8-plus/output/dist/site/jsongridrest.php:118-130 | the loop's response equals `ResponseOf` |
| CalendarRest.RoleOfLabels | Inform8-plus/php-src/jsoncalendarrest.php:52-62 | a member takes a role exactly when it carries that label and none earlier in the order start, end, complete, description, title; with none of the five it takes no role |
| CalendarRest.LastWithRoleAbsent | Inform8-plus/php-src/jsoncalendarrest.php:51-63 | the role's field stays unset exactly when no member takes the role |
| CalendarRest.LastWithRoleFound | Inform8-plus/php-src/jsoncalendarrest.php:51-63 | a set field names a member taking the role after which no member takes it, since later members overwrite earlier ones |
| CalendarRest.RolesAreLastMembers | Inform8-plus/php-src/jsoncalendarrest.php:44-63 | each field is the last member with its role; start and title default to "" and the others to null |
| CalendarRest.MakeEntry | Inform8-plus/php-src/jsoncalendarrest.php:70-92 | id, start and url from the record; end only with an end field; a complete field prefixes the title and extends the class; a description only when set and non-empty |
| CalendarRest.ClassNameNamesTable | Inform8-plus/php-src/jsoncalendarrest.php:79 | the class name starts with "cal-" and the table name |
| CalendarRest.TableEntries | Inform8-plus/php-src/jsoncalendarrest.php:41-96 | a table without the calendar label, or whose query fails, adds nothing; otherwise it fails exactly when there are records but no start or title field, and else entry i is `MakeEntry` of record i |
| CalendarRest.CalendarNames | Inform8-plus/php-src/jsoncalendarrest.php:25-26 | listing ALL fails exactly when a listed table has no definition |
| CalendarRest.CalendarNamesInOrder | Inform8-plus/php-src/jsoncalendarrest.php:20-30 | the names for a concatenated list are the concatenated names (or the first failure); one table gives its name when labelled calendar, nothing otherwise, and fails without a definition: list order is kept |
| CalendarRest.CalendarNamesMembers | Inform8-plus/php-src/jsoncalendarrest.php:20-30 | a name is selected exactly when it belongs to a listed table with the calendar label |
| CalendarRest.SelectedTables | Inform8-plus/php-src/jsoncalendarrest.php:20-33 | anything but ALL is split on commas |
| CalendarRest.EntriesOf | Inform8-plus/php-src/jsoncalendarrest.php:39-40 | a successful feed has a definition for every selected table |
| CalendarRest.EntriesOfInOrder | Inform8-plus/php-src/jsoncalendarrest.php:35-97 | the entries for a concatenated selection are the concatenated entries (or the first failure); one table gives its `TableEntries`, or fails without a definition: selection order is kept |
| CalendarRest.EntriesOfStopsAtError | Inform8-plus/php-src/jsoncalendarrest.php:35-40 | once a selected table fails, the tables after it do not change the outcome |
| CalendarRest.EntriesComeFromCalendarTables | Inform8-plus/php-src/jsoncalendarrest.php:35-97 | every entry comes from a selected table with the calendar label, and its class names that table |
| CalendarRest.FindRoles | Inform8-plus/php-src/jsoncalendarrest.php:44-63 | the loop's fields equal `RolesOf` of the members |
| CalendarRest.TableRecords | Inform8-plus/php-src/jsoncalendarrest.php:69-94 | the loop equals `TableEntries` of the records |
| CalendarRest.CalendarTable | Inform8-plus/php-src/jsoncalendarrest.php:41-96 | the loop body for one defined table yields exactly `TableEntries`: nothing unless labelled calendar with rows, else one entry per record or the error |
| CalendarRest.Calendar | Inform8-plus/php-src/jsoncalendarrest.php:15-102 | the whole script's entry list equals `CalendarFeed` |

## Left out

- Reading the SQL file and the configuration files, listing language files, writing `jackentries.txt` and generated files, and all Velocity template merging: these are I/O. The loaded contents are parameters.
- The database read (`ModelBuilder.extractModel`), `TableParser` and `ForeignKeyParser` are not part of this model. The table parser and the ALTER TABLE splitter are function parameters.
- `MasterDetailForeignKey.opposite()` and `getPrimaryKey().getDetailForeignKeys()` are not part of this model. Both are parameters (`Collaborators.opposite` and `Collaborators.hasDetailKeys`), and nothing is assumed about them.
- GetColumn: `Inform8Table.getColumn` is not part of this model. It is assumed to return the first column with exactly that name, or null when there is none.
- GeneratedFromSql: the SQL path works on the database-layer `Table` class. There, findTable (PlusSqlFileParser.java:258-265) and the missing-fk warning (PlusSqlFileParser.java:245) use `getDbname()`, while the menu merge (PlusSqlFileParser.java:182, Menu.java:28-35) matches `getName()`. The model has one name per table, so Schema.FindTable, SqlFileParser.MissingFkDataMember and the merge in GeneratedFromSql assume that the database name and the name coincide. `getMember(column)` (PlusSqlFileParser.java:147, 153, 173) is not part of this model either, and is taken, like GetColumn, as the first column with exactly that name.
- AttachKey: the Java reaches a link's two tables through the link's object references. Here the link names its tables, and both are looked up by name, ignoring case, as findTable does. The two agree when the parser's references point at the first table of that name in the list.
- `StringUtils.getCaseExplodedName` and `uppercaseFirstChar` are not part of this model. They are function parameters.
- The text of `Label.HIDDEN` is a parameter.
- `MenuItem.toString` and `getCaseExplodedName` output formatting are left out, because both are logging or presentation.
- Objects are modelled as values in four places: the render elements, `MenuItem` and the table objects are immutable values, and findTable returns an index. Aliasing between a table in the list and one held elsewhere is not modelled.
- DisplayParser.MasterOf: the master table of a foreign-key column is found by name in a schema parameter, not through the column's object reference.
- `Inform8Table.removeColumn(null)` (hiding an unknown column) and `setMemeberType` on an unknown column are no-ops in the model. Neither method is part of this model.
- An unknown column in a display block is stored as null (DisplayParser.java:47), and the model follows the code. Dereferencing a link whose master table is missing is a model-only error (`DanglingMaster`).
- `ColumnAndOrder.getColumnName`, `DisplaySettings.getOrder`, `Table.getDisplaySettings`/`getName`/`getPrimaryKey` and the member settings getters are plain field reads. They are fields.
- The concrete key and value types of `Properties` are `String` only.
- `Properties.load` parsing, other than the unescaping of values, is left out.
- Menus.Sub32: ranks are Java `int` fields, so its precondition keeps them within the 32-bit range.
- The PHP scripts are modelled as PHP 5 runs them. Their PHP-4-style constructors (`function Table`, `function DisplaySettings`, `function ColumnAndOrder`) run there, and the model's constructors assume they do. In PHP 5:
  - `0 == 'ALL'` is true;
  - dividing by a zero limit gives false with a warning, and `ceil(false)` is 0;
  - `count(-1)` is 1, so a failed grid query sends only the zero response.
- PHP loose comparison is modelled for the cases the scripts meet. Among numeric strings, only the plain spelling "-1" equals -1.
- TotalPages: PHP 7 also runs the PHP-4-style constructors (deprecated, removed in PHP 8), but there dividing by a zero limit gives INF or NAN with a warning rather than false, so the page count for a zero limit differs from the 0 of the model.
- Label and column-name comparisons are taken as exact string equality: TableDef.SearchLabels (`$lbl == $value`) and DisplaySettingsModel.PrimaryOrdered (`getColumnName() == $orderColumn`) use PHP's loose `==`, under which two numeric strings such as "1" and "01", or "10" and "1e1", are equal.
- ChopFrom: text is modelled as a sequence of Unicode scalar values, whereas Java's `length`, `substring`, `indexOf` and `compareTo` count UTF-16 code units. A supplementary character (one outside the Basic Multilingual Plane) counts as one character here and as two in Java, so a single supplementary character left after a display block is dropped by the model's chopFrom test (`idx >= length - 1`) and kept by Java; DisplayParser.Parse inherits this.
- SortKeysSorted: JavaText.CompareLess orders strings by Unicode scalar value, not by String.compareTo's UTF-16 code units. The two orders differ when a supplementary character meets a character from U+E000 to U+FFFF (U+1F600 is after U+FF01 here, before it in Java), so the key order of LanguageGenerator.SortKeys and Generator.GetSortedKeys can differ from Java's for such keys. PropertiesEscape alone works on UTF-16 code units.
- Case folding is ASCII only. Java's `toLowerCase`/`equalsIgnoreCase` fold Unicode and depend on the default locale, and under a Turkish locale "ADMIN.IGNORE.X" lowers to a dotless i. Where lower-casing changes a string's length (U+0130), the index PlusSqlFileParser.java:107-108 takes from the lowered text no longer fits the original. JavaText.ToLower and EqualsIgnoreCase fold ASCII only, and so do the members built on them: Schema.TableIndex, Schema.FindTable, Menus.ContainsIffLowerName, GeneratorConfig.IsMenuKey and IsIgnoreKey, SqlFileParser.CreateTableFragment, and the JackHistory skip in Menus.Skipped.
- `Request::getOrPost`/`getSafeGetOrPost` sanitising is not modelled. `page` and `rows` are taken as integers.
- `ceil` of a float division is integer ceiling division.
- The JSON encoding of responses and entries is left out, as is `viewInNewTabJs` and the language lookup that builds a calendar entry's url. The url is a parameter.
- DAO calls return an explicit result value (rows, none, or -1). IQL query execution is not modelled beyond its conditions.
- `Array.prototype.sort` is taken to be stable, and a JS object's keys are visited in insertion order.
- When a table definition has no members, `orderColumns` never reads `.name` of an undefined slot, and the model returns the undefined slots as they are.
- Concurrency and class loading (`new $reqDao()` by name) are left out.

## Findings

| source | as written | input that shows it | evidently intended | confidence | as-written member | corrected member |
|---|---|---|---|---|---|---|
| Inform8-plus/php-src/config/lib/Inform8/ajax/OperationResult.php:39-46 | `fromRequestResult` builds the operation result but has no `return`, so callers get null | any request result, passed or not | return the new operation result: 1 when the request passed, 0 otherwise | not executed | AjaxResults.FromRequestResultAsWritten | AjaxResults.FromRequestResult |
| Inform8-plus/output/dist/site/jsongridrest.php:98-99 | the count query filters on `$fields[1]`, which is only set when the field contains a dot | field=name, value=x, searchoption=cnt: the select filters `name LIKE '%x%'` but the count filters a null field, so the page total is wrong | count with the same field as the select | not executed | GridRest.PlanOfAsWritten | GridRest.PlanOf |
