/** The per-table display settings the admin grid keeps between requests:
    which records to show (all, enabled or disabled ones), the page size
    and current page, and the column ordering. The ordering holds at most
    two columns: clicking a column makes it the primary order (ascending),
    demotes the previous primary to secondary, and clicking the primary
    again flips its direction. Column names are compared as strings. */
module DisplaySettingsModel {
  const ASC := "asc"
  const DESC := "desc"

  /** The direction switchOrder leaves: descending after ascending, and
      ascending after anything else. */
  function Switched(direction: string): (r: string)
    ensures r == ASC || r == DESC
    ensures r == DESC <==> direction == ASC
  {
    if direction == ASC then DESC else ASC
  }

  /** On the two directions the settings ever hold, switching is an
      involution. */
  lemma SwitchTwice(direction: string)
    requires direction == ASC || direction == DESC
    ensures Switched(Switched(direction)) == direction
  {
  }

  /** One column of the ordering as a value: its name and direction. */
  datatype OrderEntry = OrderEntry(column: string, direction: string)

  /** The ordering setPrimaryOrder leaves, on values: an empty ordering
      gets the column ascending; a column already primary has its
      direction switched; any other column becomes the ascending primary,
      the old primary moves to second place and replaces what was there. */
  function PrimaryOrdered(view: seq<OrderEntry>, col: string): (r: seq<OrderEntry>)
    ensures |r| == if |view| == 0 then 1 else if view[0].column == col then |view| else if |view| == 1 then 2 else |view|
    ensures |r| > 0 && r[0].column == col
    ensures |view| == 0 || view[0].column != col ==> r[0].direction == ASC
    ensures |view| > 0 && view[0].column == col ==> r[0].direction == Switched(view[0].direction) && r[1..] == view[1..]
    ensures |view| > 0 && view[0].column != col ==> r[1] == view[0] && forall i :: 2 <= i < |view| ==> r[i] == view[i]
  {
    if |view| == 0 then [OrderEntry(col, ASC)]
    else if view[0].column == col then view[0 := OrderEntry(col, Switched(view[0].direction))]
    else [OrderEntry(col, ASC), view[0]] + (if |view| >= 2 then view[2..] else [])
  }

  /** The ordering never grows past two columns. */
  lemma PrimaryOrderedAtMostTwo(view: seq<OrderEntry>, col: string)
    requires |view| <= 2
    ensures 1 <= |PrimaryOrdered(view, col)| <= 2
  {
  }

  /** Clicking the same column three times leaves what one click leaves:
      the second click flips the direction and the third flips it back. */
  lemma ThreeClicksAreOne(view: seq<OrderEntry>, col: string)
    requires |view| > 0 && view[0].column == col ==> view[0].direction == ASC || view[0].direction == DESC
    ensures PrimaryOrdered(PrimaryOrdered(PrimaryOrdered(view, col), col), col) == PrimaryOrdered(view, col)
  {
    var once := PrimaryOrdered(view, col);
    SwitchTwice(once[0].direction);
  }

  /** A column chosen after another is ordered first, the other second. */
  lemma LaterChoiceIsPrimary(view: seq<OrderEntry>, first: string, second: string)
    requires first != second
    ensures var r := PrimaryOrdered(PrimaryOrdered(view, first), second);
      |r| >= 2 && r[0] == OrderEntry(second, ASC) && r[1].column == first
  {
  }

  /** ColumnAndOrder: a column name and its direction. */
  class ColumnAndOrder {
    var columnName: string
    var columnOrderDirection: string

    constructor (col: string)
      ensures columnName == col && columnOrderDirection == ASC
    {
      columnName := col;
      columnOrderDirection := ASC;
    }

    method SetAscending()
      modifies this
      ensures IsAscending() && !IsDescending()
      ensures columnName == old(columnName)
    {
      columnOrderDirection := ASC;
    }

    method SetDescending()
      modifies this
      ensures IsDescending() && !IsAscending()
      ensures columnName == old(columnName)
    {
      columnOrderDirection := DESC;
    }

    predicate IsAscending()
      reads this
    {
      columnOrderDirection == ASC
    }

    predicate IsDescending()
      reads this
    {
      columnOrderDirection == DESC
    }

    /** switchOrder: ascending becomes descending; anything else becomes
        ascending. */
    method SwitchOrder()
      modifies this
      ensures columnOrderDirection == Switched(old(columnOrderDirection))
      ensures old(IsAscending()) ==> IsDescending()
      ensures !old(IsAscending()) ==> IsAscending()
      ensures columnName == old(columnName)
    {
      if IsAscending() {
        SetDescending();
      } else {
        SetAscending();
      }
    }
  }

  const ALL := "ALL"
  const ENABLED := "ENABLED"
  const DISABLED := "DISABLED"

  /** DisplaySettings for one table view. */
  class DisplaySettings {
    var table: string
    var enabledDisplaySetting: string
    var perPageSize: int
    var currPage: int
    var order: seq<ColumnAndOrder>

    /** At most two order entries, and two distinct objects when there are
        two, so that switching the primary leaves the secondary alone. */
    ghost predicate Valid()
      reads this
    {
      |order| <= 2 && (|order| == 2 ==> order[0] != order[1])
    }

    /** The ordering as values. */
    function View(): (r: seq<OrderEntry>)
      reads this, order
      ensures |r| == |order|
      ensures forall i :: 0 <= i < |order| ==> r[i] == OrderEntry(order[i].columnName, order[i].columnOrderDirection)
    {
      seq(|order|, i requires 0 <= i < |order| reads this, order =>
        OrderEntry(order[i].columnName, order[i].columnOrderDirection))
    }

    constructor (table: string)
      ensures Valid()
      ensures this.table == table && enabledDisplaySetting == ENABLED
      ensures perPageSize == 50 && currPage == 0 && order == []
    {
      this.table := table;
      enabledDisplaySetting := ENABLED;
      perPageSize := 50;
      currPage := 0;
      order := [];
    }

    method SetDisplayAll()
      modifies this
      ensures IsDisplayAll() && !IsDisplayEnabled() && !IsDisplayDisabled()
      ensures table == old(table) && perPageSize == old(perPageSize) && currPage == old(currPage) && order == old(order)
    {
      enabledDisplaySetting := ALL;
    }

    method SetDisplayEnabled()
      modifies this
      ensures IsDisplayEnabled() && !IsDisplayAll() && !IsDisplayDisabled()
      ensures table == old(table) && perPageSize == old(perPageSize) && currPage == old(currPage) && order == old(order)
    {
      enabledDisplaySetting := ENABLED;
    }

    method SetDisplayDisabled()
      modifies this
      ensures IsDisplayDisabled() && !IsDisplayAll() && !IsDisplayEnabled()
      ensures table == old(table) && perPageSize == old(perPageSize) && currPage == old(currPage) && order == old(order)
    {
      enabledDisplaySetting := DISABLED;
    }

    predicate IsDisplayAll()
      reads this
    {
      enabledDisplaySetting == ALL
    }

    predicate IsDisplayEnabled()
      reads this
    {
      enabledDisplaySetting == ENABLED
    }

    predicate IsDisplayDisabled()
      reads this
    {
      enabledDisplaySetting == DISABLED
    }

    /** setPrimaryOrder: the ordering becomes PrimaryOrdered of the old one;
        only the old primary entry object is changed in place. */
    method SetPrimaryOrder(orderColumn: string)
      requires Valid()
      modifies this, order
      ensures Valid()
      ensures View() == PrimaryOrdered(old(View()), orderColumn)
      ensures table == old(table) && enabledDisplaySetting == old(enabledDisplaySetting)
      ensures perPageSize == old(perPageSize) && currPage == old(currPage)
    {
      ghost var view := View();
      if |order| > 0 {
        var primary := order[0];
        if primary.columnName == orderColumn {
          primary.SwitchOrder();
          assert View() == view[0 := OrderEntry(orderColumn, Switched(view[0].direction))];
        } else {
          var co := new ColumnAndOrder(orderColumn);
          if |order| == 1 {
            order := [co, primary];
          } else {
            order := [co, primary] + order[2..];
          }
          assert View() == [OrderEntry(orderColumn, ASC), view[0]] + (if |view| >= 2 then view[2..] else []);
        }
      } else {
        var co := new ColumnAndOrder(orderColumn);
        order := [co];
      }
    }
  }
}
