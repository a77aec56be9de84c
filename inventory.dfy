/** The stock table and its queries (app/models/inventory.py, table shape from
    app/data/DbConnection.py). The database is an in-memory sequence of rows in table order;
    `query(...).filter(...).first()` is the first row, in that order, that passes the filters. */
module Inventory {
  import opened Py
  import Enums

  /** One row of the `Inventory` table. Prices are integers. */
  datatype Row = Row(
    id: int,
    furnitureType: int,
    color: string,
    fName: string,
    fDesc: string,
    price: int,
    high: int,
    depth: int,
    width: int,
    isAdjustable: bool,
    hasArmrest: bool,
    material: string,
    quantity: int)

  /** The values the `check_furniture_type` constraint allows. */
  const AllowedTypes: set<int> := {1, 2, 3, 4, 5}

  predicate SatisfiesTypeConstraint(r: Row)
  {
    r.furnitureType in AllowedTypes
  }

  /** The `FurnitureType` values are exactly the values the check constraint allows. */
  lemma TypeConstraintMatchesEnum(v: int)
    ensures v in AllowedTypes <==> Enums.TypeByValue(v).Some?
    ensures forall t :: Enums.TypeValue(t) in AllowedTypes
  {
  }

  /** The columns of `InventoryDB`. */
  datatype Column =
    | Id
    | FurnitureTypeColumn
    | Color
    | FName
    | FDesc
    | Price
    | High
    | Depth
    | Width
    | IsAdjustable
    | HasArmrest
    | Material
    | Quantity

  /** The attribute name of a column. */
  function ColumnName(c: Column): string
  {
    match c
    case Id => "id"
    case FurnitureTypeColumn => "furniture_type"
    case Color => "color"
    case FName => "f_name"
    case FDesc => "f_desc"
    case Price => "price"
    case High => "high"
    case Depth => "depth"
    case Width => "width"
    case IsAdjustable => "is_adjustable"
    case HasArmrest => "has_armrest"
    case Material => "material"
    case Quantity => "quantity"
  }

  /** The column an attribute name denotes, if it is a column name. */
  function ColumnByName(name: string): (r: Option<Column>)
    ensures r.Some? ==> ColumnName(r.value) == name
    ensures r.None? ==> forall c :: ColumnName(c) != name
  {
    if name == "id" then Some(Id)
    else if name == "furniture_type" then Some(FurnitureTypeColumn)
    else if name == "color" then Some(Color)
    else if name == "f_name" then Some(FName)
    else if name == "f_desc" then Some(FDesc)
    else if name == "price" then Some(Price)
    else if name == "high" then Some(High)
    else if name == "depth" then Some(Depth)
    else if name == "width" then Some(Width)
    else if name == "is_adjustable" then Some(IsAdjustable)
    else if name == "has_armrest" then Some(HasArmrest)
    else if name == "material" then Some(Material)
    else if name == "quantity" then Some(Quantity)
    else None
  }

  /** `row.<column>` */
  function Get(r: Row, c: Column): Value
  {
    match c
    case Id => PyInt(r.id)
    case FurnitureTypeColumn => PyInt(r.furnitureType)
    case Color => PyStr(r.color)
    case FName => PyStr(r.fName)
    case FDesc => PyStr(r.fDesc)
    case Price => PyInt(r.price)
    case High => PyInt(r.high)
    case Depth => PyInt(r.depth)
    case Width => PyInt(r.width)
    case IsAdjustable => PyBool(r.isAdjustable)
    case HasArmrest => PyBool(r.hasArmrest)
    case Material => PyStr(r.material)
    case Quantity => PyInt(r.quantity)
  }

  /** `getattr(row, name)`; `None` stands for the `AttributeError` of a name that is no column. */
  function Attribute(r: Row, name: string): (v: Option<Value>)
    ensures v.Some? <==> ColumnByName(name).Some?
    ensures v.Some? ==> v.value == Get(r, ColumnByName(name).value)
  {
    match ColumnByName(name)
    case None => None
    case Some(c) => Some(Get(r, c))
  }

  /** One `InventoryDB.<column> == value` clause. */
  datatype Filter = Eq(column: Column, value: Value)

  /** `and_(*filters)` holds of a row. */
  predicate Matches(r: Row, filters: seq<Filter>)
  {
    forall j :: 0 <= j < |filters| ==> Get(r, filters[j].column) == filters[j].value
  }

  /** The position of the first row satisfying `p`: what `.first()` returns. */
  function FirstWhere(rows: seq<Row>, p: Row -> bool): (r: Option<nat>)
    ensures r.Some? ==> r.value < |rows| && p(rows[r.value])
    ensures r.Some? ==> forall j :: 0 <= j < r.value ==> !p(rows[j])
    ensures r.None? ==> forall j :: 0 <= j < |rows| ==> !p(rows[j])
  {
    if rows == [] then None
    else if p(rows[0]) then Some(0)
    else match FirstWhere(rows[1..], p)
      case None => None
      case Some(j) => Some(j + 1)
  }

  /** The rows satisfying `p`, in table order: what `.all()` returns. */
  function Select(rows: seq<Row>, p: Row -> bool): (r: seq<Row>)
    ensures |r| <= |rows|
    ensures forall x :: x in r <==> x in rows && p(x)
  {
    if rows == [] then []
    else if p(rows[0]) then [rows[0]] + Select(rows[1..], p)
    else Select(rows[1..], p)
  }

  /** `query(InventoryDB).filter_by(id=k).first()` */
  function RowById(rows: seq<Row>, k: int): (r: Option<Row>)
    ensures r.Some? ==> r.value in rows && r.value.id == k
    ensures r.None? ==> forall j :: 0 <= j < |rows| ==> rows[j].id != k
  {
    match FirstWhere(rows, (x: Row) => x.id == k)
    case None => None
    case Some(i) => Some(rows[i])
  }

  // ---------------------------------------------------------------------------------------
  // get_indx_furniture_by_values

  /** What `get_indx_furniture_by_values` returns: an id, `None`, or `-1` after an error. */
  datatype Lookup = Found(id: int) | NoMatch | QueryFailed

  /** The eight equality clauses of the lookup, in the source's order. */
  function ValueFilters(furnitureType: Value, color: Value, high: Value, depth: Value, width: Value,
                        isAdjustable: Value, hasArmrest: Value, material: Value): seq<Filter>
  {
    [Eq(FurnitureTypeColumn, furnitureType), Eq(Color, color), Eq(High, high),
     Eq(Depth, depth), Eq(Width, width), Eq(IsAdjustable, isAdjustable),
     Eq(HasArmrest, hasArmrest), Eq(Material, material)]
  }

  /** The exact-match lookup over eight attributes, with the query running against the table. */
  function IndexByValues(rows: seq<Row>, furnitureType: Value, color: Value, high: Value,
                         depth: Value, width: Value, isAdjustable: Value, hasArmrest: Value,
                         material: Value): (r: Lookup)
    ensures r != QueryFailed
    ensures r.Found? ==>
      exists i :: (0 <= i < |rows| && rows[i].id == r.id &&
                   Matches(rows[i], ValueFilters(furnitureType, color, high, depth, width, isAdjustable, hasArmrest, material)) &&
                   forall j :: 0 <= j < i ==>
                     !Matches(rows[j], ValueFilters(furnitureType, color, high, depth, width, isAdjustable, hasArmrest, material)))
    ensures r.NoMatch? ==> forall j :: 0 <= j < |rows| ==>
      !Matches(rows[j], ValueFilters(furnitureType, color, high, depth, width, isAdjustable, hasArmrest, material))
  {
    var fs := ValueFilters(furnitureType, color, high, depth, width, isAdjustable, hasArmrest, material);
    match FirstWhere(rows, (x: Row) => Matches(x, fs))
    case None => NoMatch
    case Some(i) => Found(rows[i].id)
  }

  /** As written: the query is issued on `self.session`, an attribute `Inventory` never sets, so
      the lookup raises `AttributeError`, which the inner handler turns into `-1`. */
  function IndexByValuesAsWritten(rows: seq<Row>, furnitureType: Value, color: Value, high: Value,
                                  depth: Value, width: Value, isAdjustable: Value,
                                  hasArmrest: Value, material: Value,
                                  inventoryHasSession: bool): Lookup
  {
    if !inventoryHasSession then QueryFailed
    else IndexByValues(rows, furnitureType, color, high, depth, width, isAdjustable, hasArmrest, material)
  }

  /** `Inventory` defines no `session` attribute, so even a row equal on all eight attributes
      is reported as `-1`. */
  lemma IndexByValuesAsWrittenFails(r: Row)
    ensures IndexByValues([r], PyInt(r.furnitureType), PyStr(r.color), PyInt(r.high),
                          PyInt(r.depth), PyInt(r.width), PyBool(r.isAdjustable),
                          PyBool(r.hasArmrest), PyStr(r.material)) == Found(r.id)
    ensures IndexByValuesAsWritten([r], PyInt(r.furnitureType), PyStr(r.color), PyInt(r.high),
                                   PyInt(r.depth), PyInt(r.width), PyBool(r.isAdjustable),
                                   PyBool(r.hasArmrest), PyStr(r.material), false) == QueryFailed
  {
    var fs := ValueFilters(PyInt(r.furnitureType), PyStr(r.color), PyInt(r.high),
                           PyInt(r.depth), PyInt(r.width), PyBool(r.isAdjustable),
                           PyBool(r.hasArmrest), PyStr(r.material));
    assert Matches(r, fs);
  }

  // ---------------------------------------------------------------------------------------
  // update_quntity

  /** The new quantity: a decrease clamps at zero, an increase adds without bound. */
  function AdjustedQuantity(q: int, decrease: bool, n: int): int
  {
    if decrease then (if q - n > 0 then q - n else 0) else q + n
  }

  /** A decrease never makes a quantity negative; an increase by n >= 0 keeps it non-negative. */
  lemma AdjustKeepsNonNegative(q: int, decrease: bool, n: int)
    requires q >= 0
    requires !decrease ==> n >= 0
    ensures AdjustedQuantity(q, decrease, n) >= 0
    ensures decrease && n >= 0 ==> AdjustedQuantity(q, decrease, n) <= q
  {
  }

  /** Reserving n units that are in stock and then releasing them restores the quantity;
      reserving more than is in stock and releasing does not. */
  lemma ReserveReleaseRoundTrip(q: int, n: int)
    requires 0 <= n
    ensures n <= q ==> AdjustedQuantity(AdjustedQuantity(q, true, n), false, n) == q
    ensures q >= 0 && n > q ==> AdjustedQuantity(AdjustedQuantity(q, true, n), false, n) == n
  {
  }

  /** The table with the quantity of row `i` adjusted. */
  function AdjustRow(rows: seq<Row>, i: nat, decrease: bool, n: int): (r: seq<Row>)
    requires i < |rows|
    ensures |r| == |rows|
    ensures r[i] == rows[i].(quantity := AdjustedQuantity(rows[i].quantity, decrease, n))
    ensures forall j :: 0 <= j < |rows| && j != i ==> r[j] == rows[j]
  {
    rows[i := rows[i].(quantity := AdjustedQuantity(rows[i].quantity, decrease, n))]
  }

  /** The update as the source performs it, reading and writing the row attribute `attr`:
      with no database fault and a row of id `indx`, a read of an attribute the row does not
      have raises `AttributeError`, which the handler turns into `False`. Returns the flag and
      the table. The source spells the attribute `quntity`; the schema's column is `quantity`. */
  function UpdateQuantityVia(rows: seq<Row>, indx: int, action: Value, quantity: int, fault: bool,
                             attr: string): (bool, seq<Row>)
  {
    if fault then (false, rows)
    else match FirstWhere(rows, (x: Row) => x.id == indx)
      case None => (false, rows)
      case Some(i) =>
        if Attribute(rows[i], attr) != Some(PyInt(rows[i].quantity)) then (false, rows)  // AttributeError
        else (true, AdjustRow(rows, i, Truthy(action), quantity))
  }

  /** As written (`row.quntity`): a row with id `indx` exists, yet the update reports failure and
      changes nothing, whichever direction it is asked for. */
  lemma UpdateQuantityAsWrittenAlwaysFails(rows: seq<Row>, indx: int, action: Value, quantity: int)
    requires exists j :: 0 <= j < |rows| && rows[j].id == indx
    ensures RowById(rows, indx).Some?
    ensures UpdateQuantityVia(rows, indx, action, quantity, false, "quntity") == (false, rows)
  {
    assert ColumnByName("quntity") == None;
  }

  /** The `Inventory` singleton holding the stock table. */
  class Stock {
    var rows: seq<Row>

    constructor (initial: seq<Row>)
      ensures rows == initial
    {
      rows := initial;
    }

    /** `update_quntity(indx, action, quantity)` with the quantity column spelt as in the schema.
        A truthy `action` decreases (clamped at 0), a falsy one increases. `fault` stands for an
        exception raised by the database; the result is then `False`. */
    method UpdateQuantity(indx: int, action: Value, quantity: int, fault: bool) returns (ok: bool)
      modifies this
      ensures ok <==> !fault && RowById(old(rows), indx).Some?
      ensures !ok ==> rows == old(rows)
      ensures ok ==> exists i :: 0 <= i < |old(rows)| && old(rows)[i].id == indx &&
                                (forall j :: 0 <= j < i ==> old(rows)[j].id != indx) &&
                                rows == AdjustRow(old(rows), i, Truthy(action), quantity)
      ensures (ok, rows) == UpdateQuantityVia(old(rows), indx, action, quantity, fault, "quantity")
    {
      var succsuss := true;
      if fault {
        succsuss := false;
      } else {
        var i := FirstWhere(rows, (x: Row) => x.id == indx);
        if i.Some? {
          rows := AdjustRow(rows, i.value, Truthy(action), quantity);
        } else {
          succsuss := false;
        }
      }
      ok := succsuss;
    }
  }

  /** A successful decrease on a non-negative table leaves every quantity non-negative, and every
      row other than the adjusted one is unchanged. */
  lemma AdjustRowKeepsStockNonNegative(rows: seq<Row>, i: nat, decrease: bool, n: int)
    requires i < |rows|
    requires forall j :: 0 <= j < |rows| ==> rows[j].quantity >= 0
    requires !decrease ==> n >= 0
    ensures forall j :: 0 <= j < |rows| ==> AdjustRow(rows, i, decrease, n)[j].quantity >= 0
  {
    forall j | 0 <= j < |rows|
      ensures AdjustRow(rows, i, decrease, n)[j].quantity >= 0
    {
      if j == i {
        AdjustKeepsNonNegative(rows[i].quantity, decrease, n);
      }
    }
  }

  // ---------------------------------------------------------------------------------------
  // get_information_by_query and get_information_by_price_range

  /** `get_information_by_query(column, value)`: `None` for a name that is not a column (without
      querying) or when nothing matches; otherwise the matching rows in table order. */
  function QueryByColumn(rows: seq<Row>, column: string, value: Value): (r: Option<seq<Row>>)
    ensures ColumnByName(column).None? ==> r.None?
    ensures r.Some? ==> r.value != [] &&
                        forall x :: x in r.value <==> x in rows && Attribute(x, column) == Some(value)
    ensures r.None? && ColumnByName(column).Some? ==>
      forall j :: 0 <= j < |rows| ==> Attribute(rows[j], column) != Some(value)
  {
    if ColumnByName(column).None? then None
    else
      var m := Select(rows, (x: Row) => Attribute(x, column) == Some(value));
      assert forall j :: 0 <= j < |rows| ==> rows[j] in rows;
      if m == [] then None else Some(m)
  }

  /** The upper price bound; `max_price` defaults to infinity. */
  datatype Bound = AtMost(max: int) | Unbounded

  predicate InRange(price: int, lo: int, hi: Bound)
  {
    lo <= price && (hi.AtMost? ==> price <= hi.max)
  }

  /** `get_information_by_price_range(min_price, max_price)`: the rows with
      min <= price <= max, or `None` when there are none. */
  function QueryByPriceRange(rows: seq<Row>, lo: int, hi: Bound): (r: Option<seq<Row>>)
    ensures r.Some? ==> r.value != [] && forall x :: x in r.value <==> x in rows && InRange(x.price, lo, hi)
    ensures r.None? ==> forall j :: 0 <= j < |rows| ==> !InRange(rows[j].price, lo, hi)
  {
    var m := Select(rows, (x: Row) => InRange(x.price, lo, hi));
    assert forall j :: 0 <= j < |rows| ==> rows[j] in rows;
    if m == [] then None else Some(m)
  }

  /** An inverted range is not an error: it simply matches nothing. */
  lemma InvertedRangeMatchesNothing(rows: seq<Row>, lo: int, hi: int)
    requires lo > hi
    ensures QueryByPriceRange(rows, lo, AtMost(hi)) == None
  {
    var m := Select(rows, (x: Row) => InRange(x.price, lo, AtMost(hi)));
    if m != [] {
      assert m[0] in m;
    }
  }

  /** With the default bounds (0 and infinity) every row of non-negative price is returned. */
  lemma DefaultRangeKeepsNonNegativePrices(rows: seq<Row>)
    requires rows != []
    requires forall j :: 0 <= j < |rows| ==> rows[j].price >= 0
    ensures QueryByPriceRange(rows, 0, Unbounded).Some?
    ensures forall x :: x in rows ==> x in QueryByPriceRange(rows, 0, Unbounded).value
  {
    assert InRange(rows[0].price, 0, Unbounded);
  }
}
