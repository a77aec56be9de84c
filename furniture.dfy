/** The furniture variants (app/models/FurnituresClass.py): five concrete classes under the
    abstract `Table` and `Chair`, their per-class constants, constructor validation, the
    stock-backed lookups and the cross-sell scan. */
module Furnitures {
  import opened Py
  import opened Text
  import opened Enums
  import Inventory

  /** DiningTable, WorkDesk and CoffeeTable derive from `Table`; the chairs from `Chair`. */
  predicate IsTableKind(k: FurnitureType)
  {
    k == DiningTable || k == WorkDesk || k == CoffeeTable
  }

  /** `cls.__name__` */
  function ClassName(k: FurnitureType): string
  {
    match k
    case DiningTable => "DiningTable"
    case WorkDesk => "WorkDesk"
    case CoffeeTable => "CoffeeTable"
    case WorkChair => "WorkChair"
    case GamingChair => "GamingChair"
  }

  datatype Dims = Dims(high: int, depth: int, width: int)

  /** `cls.dimensions`, fixed per class. */
  function Dimensions(k: FurnitureType): Dims
  {
    match k
    case DiningTable => Dims(100, 50, 60)
    case WorkDesk => Dims(120, 55, 65)
    case CoffeeTable => Dims(130, 60, 70)
    case GamingChair => Dims(150, 70, 80)
    case WorkChair => Dims(140, 65, 75)
  }

  /** `cls.available_colors` */
  function AvailableColors(k: FurnitureType): seq<string>
  {
    match k
    case DiningTable => ["Brown", "Gray"]
    case WorkDesk => ["Black", "White"]
    case CoffeeTable => ["Gray", "Red"]
    case GamingChair => ["Black", "Blue"]
    case WorkChair => ["Red", "White"]
  }

  /** `cls.available_materials`; only the table classes declare one. */
  function AvailableMaterials(k: FurnitureType): seq<string>
    requires IsTableKind(k)
  {
    match k
    case DiningTable => ["Wood", "Metal"]
    case WorkDesk => ["Wood", "Glass"]
    case CoffeeTable => ["Glass", "Plastic"]
  }

  /** The attributes a table or a chair adds to `Furniture`. */
  datatype Extra = TableAttrs(material: string) | ChairAttrs(isAdjustable: bool, hasArmrest: bool)

  /** A constructed furniture object. `oid` is its identity: the classes define no `__eq__`, so
      Python compares them by identity. Nothing changes an object after construction. */
  datatype Furniture = Furniture(
    oid: nat,
    kind: FurnitureType,
    color: string,
    extra: Extra,
    price: Option<int>,
    name: string,
    desc: string)

  /** A table object carries a material, a chair object the two chair flags. */
  predicate WellFormed(f: Furniture)
  {
    IsTableKind(f.kind) <==> f.extra.TableAttrs?
  }

  // ---------------------------------------------------------------------------------------
  // Validation

  /** `_validate_color`: a string whose lower-case form is among the lower-cased allowed colours. */
  function ValidateColor(k: FurnitureType, color: Value): (r: Outcome)
    ensures r == Pass <==> color.PyStr? && Lower(color.s) in LowerAll(AvailableColors(k))
    ensures !color.PyStr? ==> r == Raise(TypeError("Color must be a string."))
    ensures color.PyStr? && r != Pass ==> r.Raise? && r.error.ValueError?
  {
    if !color.PyStr? then Raise(TypeError("Color must be a string."))
    else if Lower(color.s) in LowerAll(AvailableColors(k)) then Pass
    else Raise(ValueError("Color '" + color.s + "' is not allowed. Allowed colors: "
                          + Join(AvailableColors(k), ", ")))
  }

  /** `Table._validate_material`, the same rule against the allowed materials. */
  function ValidateMaterial(k: FurnitureType, material: Value): (r: Outcome)
    requires IsTableKind(k)
    ensures r == Pass <==> material.PyStr? && Lower(material.s) in LowerAll(AvailableMaterials(k))
    ensures !material.PyStr? ==> r == Raise(TypeError("Material must be a string."))
    ensures material.PyStr? && r != Pass ==> r.Raise? && r.error.ValueError?
  {
    if !material.PyStr? then Raise(TypeError("Material must be a string."))
    else if Lower(material.s) in LowerAll(AvailableMaterials(k)) then Pass
    else Raise(ValueError("Material '" + material.s + "' is not allowed. Allowed materials: "
                          + Join(AvailableMaterials(k), ", ")))
  }

  lemma LowerOfUpper(s: string)
    ensures Lower(Upper(s)) == Lower(s)
  {
    assert forall i :: 0 <= i < |s| ==> Lower(Upper(s))[i] == Lower(s)[i];
  }

  /** Validation ignores case: a colour or a table's material passes exactly when its lower- or
      upper-cased form does. */
  lemma ValidationIgnoresCase(k: FurnitureType, s: string)
    ensures ValidateColor(k, PyStr(s)) == Pass <==> ValidateColor(k, PyStr(Lower(s))) == Pass
    ensures ValidateColor(k, PyStr(s)) == Pass <==> ValidateColor(k, PyStr(Upper(s))) == Pass
    ensures IsTableKind(k) ==>
      (ValidateMaterial(k, PyStr(s)) == Pass <==> ValidateMaterial(k, PyStr(Lower(s))) == Pass)
    ensures IsTableKind(k) ==>
      (ValidateMaterial(k, PyStr(s)) == Pass <==> ValidateMaterial(k, PyStr(Upper(s))) == Pass)
  {
    LowerIdempotent(s);
    LowerOfUpper(s);
  }

  // ---------------------------------------------------------------------------------------
  // Stock-backed lookups. `key` is the row id the furniture object resolved to (None when it
  // resolved to nothing); `fault` stands for an exception raised by the database.

  datatype Info = Info(price: int, name: string, desc: string)

  const DefaultInfo := Info(-1, "None", "None")

  /** `_get_info_furniture_by_key`: price, name and description of the keyed row, or the
      defaults (-1, "None", "None") for a missing key, a missing row or an error. */
  function InfoByKey(key: Option<int>, rows: seq<Inventory.Row>, fault: bool): (r: Info)
    ensures key.None? || fault || Inventory.RowById(rows, key.value).None? ==> r == DefaultInfo
    ensures key.Some? && !fault && Inventory.RowById(rows, key.value).Some? ==>
      var row := Inventory.RowById(rows, key.value).value;
      r == Info(row.price, row.fName, row.fDesc) && row.id == key.value
  {
    if key.None? || fault then DefaultInfo
    else match Inventory.RowById(rows, key.value)
      case None => DefaultInfo
      case Some(row) => Info(row.price, row.fName, row.fDesc)
  }

  /** `check_availability(amount)`: True exactly when the keyed row exists and holds at least
      `amount` units; a missing key, a missing row or an error gives False. */
  function CheckAvailability(key: Option<int>, rows: seq<Inventory.Row>, amount: int, fault: bool): (r: bool)
    ensures r <==> !fault && key.Some? && Inventory.RowById(rows, key.value).Some? &&
                   Inventory.RowById(rows, key.value).value.quantity >= amount
  {
    if key.None? || fault then false
    else match Inventory.RowById(rows, key.value)
      case None => false
      case Some(row) => row.quantity >= amount
  }

  /** Availability is monotone: stock enough for an amount is enough for any smaller amount. */
  lemma AvailabilityMonotone(key: Option<int>, rows: seq<Inventory.Row>, a: int, b: int, fault: bool)
    requires b <= a
    requires CheckAvailability(key, rows, a, fault)
    ensures CheckAvailability(key, rows, b, fault)
  {
  }

  /** `get_price`: raises `ValueError` while the price is unset. */
  function GetPrice(f: Furniture): (r: Result<int>)
    ensures f.price.None? <==> r == Err(ValueError("Price is not set yet."))
    ensures f.price.Some? ==> r == Ok(f.price.value)
  {
    match f.price
    case None => Err(ValueError("Price is not set yet."))
    case Some(p) => Ok(p)
  }

  // ---------------------------------------------------------------------------------------
  // Construction

  /** The constructor's parameters in order: `(color, material)` for tables,
      `(color, is_adjustable, has_armrest)` for chairs. */
  function Params(k: FurnitureType): seq<string>
  {
    if IsTableKind(k) then ["color", "material"] else ["color", "is_adjustable", "has_armrest"]
  }

  /** `Cls(*args)` for one of the five classes: `Furniture.__init__` validates the colour and
      fetches `info`, then `Table.__init__` validates the material or `Chair.__init__` checks
      that both flags are `bool`. */
  function Construct(oid: nat, k: FurnitureType, args: seq<Value>, info: Info): (r: Result<Furniture>)
    requires |args| == |Params(k)|
    ensures r.Ok? ==> WellFormed(r.value) && r.value.oid == oid && r.value.kind == k
    ensures r.Ok? ==> PyStr(r.value.color) == args[0] && ValidateColor(k, args[0]) == Pass
    ensures r.Ok? ==> r.value.price == Some(info.price) && r.value.name == info.name && r.value.desc == info.desc
    ensures r.Ok? && IsTableKind(k) ==>
      PyStr(r.value.extra.material) == args[1] && ValidateMaterial(k, args[1]) == Pass
    ensures r.Ok? && !IsTableKind(k) ==>
      PyBool(r.value.extra.isAdjustable) == args[1] && PyBool(r.value.extra.hasArmrest) == args[2]
    ensures ValidateColor(k, args[0]).Raise? ==> r == Err(ValidateColor(k, args[0]).error)
    ensures ValidateColor(k, args[0]) == Pass && IsTableKind(k) && ValidateMaterial(k, args[1]).Raise? ==>
      r == Err(ValidateMaterial(k, args[1]).error)
    ensures ValidateColor(k, args[0]) == Pass && !IsTableKind(k) && !(args[1].PyBool? && args[2].PyBool?) ==>
      r == Err(TypeError("is adjustable and has armrest must be a bool."))
  {
    match ValidateColor(k, args[0])
    case Raise(e) => Err(e)
    case Pass =>
      if IsTableKind(k) then
        match ValidateMaterial(k, args[1])
        case Raise(e) => Err(e)
        case Pass =>
          Ok(Furniture(oid, k, args[0].s, TableAttrs(args[1].s), Some(info.price), info.name, info.desc))
      else if args[1].PyBool? && args[2].PyBool? then
        Ok(Furniture(oid, k, args[0].s, ChairAttrs(args[1].b, args[2].b), Some(info.price), info.name, info.desc))
      else Err(TypeError("is adjustable and has armrest must be a bool."))
  }

  /** What `Furniture.__init__` raises as written once the colour has passed: it calls
      `Inventory().get_index_furniture_by_values(self)`, a method `Inventory` does not have, and
      the call sits outside any `try`. `check_availability` makes the same call first. */
  const MissingLookup := AttributeError("'Inventory' object has no attribute 'get_index_furniture_by_values'")

  /** `Cls(*args)` as written: the colour check, then the missing lookup raises, so no object is
      ever built. */
  function ConstructAsWritten(k: FurnitureType, args: seq<Value>): (r: Result<Furniture>)
    requires |args| == |Params(k)|
    ensures r.Err?
    ensures ValidateColor(k, args[0]).Raise? ==> r == Err(ValidateColor(k, args[0]).error)
  {
    match ValidateColor(k, args[0])
    case Raise(e) => Err(e)
    case Pass => Err(MissingLookup)
  }

  /** Every object the corrected constructor builds fails as written with the missing lookup's
      `AttributeError`, and every error the corrected constructor raises from the colour check
      is raised as written too. */
  lemma ConstructAsWrittenNeverBuilds(oid: nat, k: FurnitureType, args: seq<Value>, info: Info)
    requires |args| == |Params(k)|
    ensures Construct(oid, k, args, info).Ok? ==> ConstructAsWritten(k, args) == Err(MissingLookup)
    ensures ValidateColor(k, args[0]).Raise? ==>
      ConstructAsWritten(k, args) == Construct(oid, k, args, info)
  {
  }

  /** A constructed object always has a price, so `get_price` on it never raises. */
  lemma ConstructedHasPrice(oid: nat, k: FurnitureType, args: seq<Value>, info: Info)
    requires |args| == |Params(k)|
    requires Construct(oid, k, args, info).Ok?
    ensures GetPrice(Construct(oid, k, args, info).value) == Ok(info.price)
  {
  }

  // ---------------------------------------------------------------------------------------
  // Cross-sell tables: `__optimal_matches` and the key built from an object's attributes.

  /** `str(b)` */
  function BoolText(b: bool): string
  {
    if b then "True" else "False"
  }

  /** `f"{color.lower()} & {material.lower()}"` for tables,
      `f"{color.lower()} & {is_adjustable} & {has_armrest}"` for chairs. */
  function MatchKey(f: Furniture): string
  {
    match f.extra
    case TableAttrs(m) => Lower(f.color) + " & " + Lower(m)
    case ChairAttrs(a, h) => Lower(f.color) + " & " + BoolText(a) + " & " + BoolText(h)
  }

  /** `cls.__optimal_matches` */
  function OptimalMatches(k: FurnitureType): map<string, seq<int>>
  {
    match k
    case DiningTable => DiningTableMatches()
    case WorkDesk => WorkDeskMatches()
    case CoffeeTable => CoffeeTableMatches()
    case GamingChair => GamingChairMatches()
    case WorkChair => WorkChairMatches()
  }

  /** `DiningTable.__optimal_matches` */
  function DiningTableMatches(): map<string, seq<int>>
  {
    map["brown & wood" := [13, 14], "brown & metal" := [15, 16],
        "gray & wood" := [17, 19], "gray & metal" := [18, 20]]
  }

  /** `WorkDesk.__optimal_matches` */
  function WorkDeskMatches(): map<string, seq<int>>
  {
    map["black & wood" := [21, 17, 24], "black & glass" := [22, 23, 18],
        "white & wood" := [25, 26, 19], "white & glass" := [27, 28, 18]]
  }

  /** `CoffeeTable.__optimal_matches` */
  function CoffeeTableMatches(): map<string, seq<int>>
  {
    map["gray & glass" := [13, 15], "gray & plastic" := [14, 16],
        "red & glass" := [17, 19], "red & plastic" := [18, 20]]
  }

  /** `GamingChair.__optimal_matches` */
  function GamingChairMatches(): map<string, seq<int>>
  {
    map["black & True & True" := [7, 8], "black & True & False" := [8, 7],
        "black & False & True" := [6, 8], "black & False & False" := [8, 6],
        "blue & True & True" := [5, 6], "blue & True & False" := [6, 5],
        "blue & False & True" := [5, 7], "blue & False & False" := [7, 5]]
  }

  /** `WorkChair.__optimal_matches` */
  function WorkChairMatches(): map<string, seq<int>>
  {
    map["red & True & True" := [5, 7], "red & True & False" := [5, 6],
        "red & False & True" := [7, 5], "red & False & False" := [6, 5],
        "white & True & True" := [7, 8], "white & True & False" := [6, 8],
        "white & False & True" := [8, 7], "white & False & False" := [8, 6]]
  }

  /** `__optimal_matches.get(key, [])` */
  function MatchOptions(f: Furniture): seq<int>
  {
    var table := OptimalMatches(f.kind);
    var key := MatchKey(f);
    if key in table then table[key] else []
  }

  lemma LowerPair(a: string, b: string)
    ensures LowerAll([a, b]) == [Lower(a), Lower(b)]
  {
  }

  /** For each class: the lower-cased allowed colours (and materials), and the fact that every
      combination of them with a material (tables) or with the two flags (chairs) is a key of
      the class's match table. */
  lemma DiningTableLowered()
    ensures LowerAll(AvailableColors(DiningTable)) == ["brown", "gray"]
    ensures LowerAll(AvailableMaterials(DiningTable)) == ["wood", "metal"]
  {
    LowerPair("Brown", "Gray");
    LowerPair("Wood", "Metal");
    assert Lower("Brown") == "brown";
    assert Lower("Gray") == "gray";
    assert Lower("Wood") == "wood";
    assert Lower("Metal") == "metal";
  }

  lemma DiningTableKeys(c: string, m: string)
    requires c == "brown" || c == "gray"
    requires m == "wood" || m == "metal"
    ensures c + " & " + m in DiningTableMatches()
  {
    if c == "brown" && m == "wood" {
      assert c + " & " + m == "brown & wood";
    } else if c == "brown" && m == "metal" {
      assert c + " & " + m == "brown & metal";
    } else if c == "gray" && m == "wood" {
      assert c + " & " + m == "gray & wood";
    } else {
      assert c + " & " + m == "gray & metal";
    }
  }

  lemma WorkDeskLowered()
    ensures LowerAll(AvailableColors(WorkDesk)) == ["black", "white"]
    ensures LowerAll(AvailableMaterials(WorkDesk)) == ["wood", "glass"]
  {
    LowerPair("Black", "White");
    LowerPair("Wood", "Glass");
    assert Lower("Black") == "black";
    assert Lower("White") == "white";
    assert Lower("Wood") == "wood";
    assert Lower("Glass") == "glass";
  }

  lemma WorkDeskKeys(c: string, m: string)
    requires c == "black" || c == "white"
    requires m == "wood" || m == "glass"
    ensures c + " & " + m in WorkDeskMatches()
  {
    if c == "black" && m == "wood" {
      assert c + " & " + m == "black & wood";
    } else if c == "black" && m == "glass" {
      assert c + " & " + m == "black & glass";
    } else if c == "white" && m == "wood" {
      assert c + " & " + m == "white & wood";
    } else {
      assert c + " & " + m == "white & glass";
    }
  }

  lemma CoffeeTableLowered()
    ensures LowerAll(AvailableColors(CoffeeTable)) == ["gray", "red"]
    ensures LowerAll(AvailableMaterials(CoffeeTable)) == ["glass", "plastic"]
  {
    LowerPair("Gray", "Red");
    LowerPair("Glass", "Plastic");
    assert Lower("Gray") == "gray";
    assert Lower("Red") == "red";
    assert Lower("Glass") == "glass";
    assert Lower("Plastic") == "plastic";
  }

  lemma CoffeeTableKeys(c: string, m: string)
    requires c == "gray" || c == "red"
    requires m == "glass" || m == "plastic"
    ensures c + " & " + m in CoffeeTableMatches()
  {
    if c == "gray" && m == "glass" {
      assert c + " & " + m == "gray & glass";
    } else if c == "gray" && m == "plastic" {
      assert c + " & " + m == "gray & plastic";
    } else if c == "red" && m == "glass" {
      assert c + " & " + m == "red & glass";
    } else {
      assert c + " & " + m == "red & plastic";
    }
  }

  lemma GamingChairLowered()
    ensures LowerAll(AvailableColors(GamingChair)) == ["black", "blue"]
  {
    LowerPair("Black", "Blue");
    assert Lower("Black") == "black";
    assert Lower("Blue") == "blue";
  }

  lemma GamingChairKeys(c: string, a: bool, h: bool)
    requires c == "black" || c == "blue"
    ensures c + " & " + BoolText(a) + " & " + BoolText(h) in GamingChairMatches()
  {
    if c == "black" {
      GamingChairBlackKeys(a, h);
    } else {
      GamingChairBlueKeys(a, h);
    }
  }

  lemma GamingChairBlackKeys(a: bool, h: bool)
    ensures "black" + " & " + BoolText(a) + " & " + BoolText(h) in GamingChairMatches()
  {
    assert "black" + " & " == "black & ";
    assert "black & " + "True" == "black & True";
    assert "black & True" + " & " == "black & True & ";
    assert "black & True & " + "True" == "black & True & True";
    assert "black & True & " + "False" == "black & True & False";
    assert "black & " + "False" == "black & False";
    assert "black & False" + " & " == "black & False & ";
    assert "black & False & " + "True" == "black & False & True";
    assert "black & False & " + "False" == "black & False & False";
  }


  lemma GamingChairBlueKeys(a: bool, h: bool)
    ensures "blue" + " & " + BoolText(a) + " & " + BoolText(h) in GamingChairMatches()
  {
    assert "blue" + " & " == "blue & ";
    assert "blue & " + "True" == "blue & True";
    assert "blue & True" + " & " == "blue & True & ";
    assert "blue & True & " + "True" == "blue & True & True";
    assert "blue & True & " + "False" == "blue & True & False";
    assert "blue & " + "False" == "blue & False";
    assert "blue & False" + " & " == "blue & False & ";
    assert "blue & False & " + "True" == "blue & False & True";
    assert "blue & False & " + "False" == "blue & False & False";
  }



  lemma WorkChairLowered()
    ensures LowerAll(AvailableColors(WorkChair)) == ["red", "white"]
  {
    LowerPair("Red", "White");
    assert Lower("Red") == "red";
    assert Lower("White") == "white";
  }

  lemma WorkChairKeys(c: string, a: bool, h: bool)
    requires c == "red" || c == "white"
    ensures c + " & " + BoolText(a) + " & " + BoolText(h) in WorkChairMatches()
  {
    if c == "red" {
      WorkChairRedKeys(a, h);
    } else {
      WorkChairWhiteKeys(a, h);
    }
  }

  lemma WorkChairRedKeys(a: bool, h: bool)
    ensures "red" + " & " + BoolText(a) + " & " + BoolText(h) in WorkChairMatches()
  {
    assert "red" + " & " == "red & ";
    assert "red & " + "True" == "red & True";
    assert "red & True" + " & " == "red & True & ";
    assert "red & True & " + "True" == "red & True & True";
    assert "red & True & " + "False" == "red & True & False";
    assert "red & " + "False" == "red & False";
    assert "red & False" + " & " == "red & False & ";
    assert "red & False & " + "True" == "red & False & True";
    assert "red & False & " + "False" == "red & False & False";
  }


  lemma WorkChairWhiteKeys(a: bool, h: bool)
    ensures "white" + " & " + BoolText(a) + " & " + BoolText(h) in WorkChairMatches()
  {
    assert "white" + " & " == "white & ";
    assert "white & " + "True" == "white & True";
    assert "white & True" + " & " == "white & True & ";
    assert "white & True & " + "True" == "white & True & True";
    assert "white & True & " + "False" == "white & True & False";
    assert "white & " + "False" == "white & False";
    assert "white & False" + " & " == "white & False & ";
    assert "white & False & " + "True" == "white & False & True";
    assert "white & False & " + "False" == "white & False & False";
  }



  lemma DiningTableKeyListed(c: string, m: string)
    requires c in LowerAll(AvailableColors(DiningTable))
    requires m in LowerAll(AvailableMaterials(DiningTable))
    ensures c + " & " + m in DiningTableMatches()
  {
    DiningTableLowered();
    DiningTableKeys(c, m);
  }

  lemma WorkDeskKeyListed(c: string, m: string)
    requires c in LowerAll(AvailableColors(WorkDesk))
    requires m in LowerAll(AvailableMaterials(WorkDesk))
    ensures c + " & " + m in WorkDeskMatches()
  {
    WorkDeskLowered();
    WorkDeskKeys(c, m);
  }

  lemma CoffeeTableKeyListed(c: string, m: string)
    requires c in LowerAll(AvailableColors(CoffeeTable))
    requires m in LowerAll(AvailableMaterials(CoffeeTable))
    ensures c + " & " + m in CoffeeTableMatches()
  {
    CoffeeTableLowered();
    CoffeeTableKeys(c, m);
  }

  lemma GamingChairKeyListed(c: string, a: bool, h: bool)
    requires c in LowerAll(AvailableColors(GamingChair))
    ensures c + " & " + BoolText(a) + " & " + BoolText(h) in GamingChairMatches()
  {
    GamingChairLowered();
    GamingChairKeys(c, a, h);
  }

  lemma WorkChairKeyListed(c: string, a: bool, h: bool)
    requires c in LowerAll(AvailableColors(WorkChair))
    ensures c + " & " + BoolText(a) + " & " + BoolText(h) in WorkChairMatches()
  {
    WorkChairLowered();
    WorkChairKeys(c, a, h);
  }

  /** An object whose colour (and material) passes validation has a key its class's match table
      lists. */
  lemma MatchKeyListed(f: Furniture)
    requires WellFormed(f)
    requires Lower(f.color) in LowerAll(AvailableColors(f.kind))
    requires f.extra.TableAttrs? ==> Lower(f.extra.material) in LowerAll(AvailableMaterials(f.kind))
    ensures MatchKey(f) in OptimalMatches(f.kind)
  {
    var c := Lower(f.color);
    match f.kind
    case DiningTable =>
      DiningTableKeyListed(c, Lower(f.extra.material));
    case WorkDesk =>
      WorkDeskKeyListed(c, Lower(f.extra.material));
    case CoffeeTable =>
      CoffeeTableKeyListed(c, Lower(f.extra.material));
    case GamingChair =>
      GamingChairKeyListed(c, f.extra.isAdjustable, f.extra.hasArmrest);
    case WorkChair =>
      WorkChairKeyListed(c, f.extra.isAdjustable, f.extra.hasArmrest);
  }

  /** Every object a constructor accepts builds a key that its class's match table lists, so
      `get_match_furniture` always has options to try. */
  lemma MatchKeyCovered(oid: nat, k: FurnitureType, args: seq<Value>, info: Info)
    requires |args| == |Params(k)|
    requires Construct(oid, k, args, info).Ok?
    ensures MatchKey(Construct(oid, k, args, info).value) in OptimalMatches(k)
  {
    var f := Construct(oid, k, args, info).value;
    assert Lower(f.color) in LowerAll(AvailableColors(k));
    assert f.extra.TableAttrs? ==> Lower(f.extra.material) in LowerAll(AvailableMaterials(k));
    MatchKeyListed(f);
  }

  // ---------------------------------------------------------------------------------------
  // get_match_furniture

  /** Option id `k` qualifies: it lies in `lo..hi` and its row exists with at least one unit. */
  predicate InStock(rows: seq<Inventory.Row>, lo: int, hi: int, k: int)
  {
    lo <= k <= hi && Inventory.RowById(rows, k).Some? && Inventory.RowById(rows, k).value.quantity >= 1
  }

  /** The scan of `get_match_furniture`: walk the options in order and stop at the first one
      that qualifies; its row is the hit. */
  method ScanForMatch(lo: int, hi: int, options: seq<int>, rows: seq<Inventory.Row>)
    returns (hit: Option<Inventory.Row>)
    ensures hit.Some? ==>
      exists i :: (0 <= i < |options| && InStock(rows, lo, hi, options[i]) &&
                   hit.value == Inventory.RowById(rows, options[i]).value &&
                   forall j :: 0 <= j < i ==> !InStock(rows, lo, hi, options[j]))
    ensures hit.None? ==> forall j :: 0 <= j < |options| ==> !InStock(rows, lo, hi, options[j])
  {
    hit := None;
    var i := 0;
    while i < |options|
      invariant 0 <= i <= |options|
      invariant hit.None?
      invariant forall j :: 0 <= j < i ==> !InStock(rows, lo, hi, options[j])
    {
      var k := options[i];
      if lo <= k <= hi {
        var row := Inventory.RowById(rows, k);
        if row.Some? && row.value.quantity >= 1 {
          hit := row;
          break;
        }
      }
      i := i + 1;
    }
  }

  /** The advertisement chosen: the fixed "unique item" text, or an offer built from the hit. */
  datatype Advert =
    | UniqueItem
    | ChairOffer(desc: string, isAdjustable: bool, hasArmrest: bool)
    | TableOffer(desc: string, material: string)

  const UniqueItemText := "You have chosen a unique item! Good choice!"

  /** `Table.get_match_furniture`: a chair offer from the first in-stock option among ids 13..28. */
  method TableMatch(options: seq<int>, rows: seq<Inventory.Row>, fault: bool) returns (a: Advert)
    ensures fault ==> a == UniqueItem
    ensures a == UniqueItem <==> fault || forall j :: 0 <= j < |options| ==> !InStock(rows, 13, 28, options[j])
    ensures a != UniqueItem ==>
      exists i :: (0 <= i < |options| && InStock(rows, 13, 28, options[i]) &&
                   (forall j :: 0 <= j < i ==> !InStock(rows, 13, 28, options[j])) &&
                   var row := Inventory.RowById(rows, options[i]).value;
                   a == ChairOffer(row.fDesc, row.isAdjustable, row.hasArmrest))
  {
    a := UniqueItem;
    if !fault {
      var hit := ScanForMatch(13, 28, options, rows);
      if hit.Some? {
        a := ChairOffer(hit.value.fDesc, hit.value.isAdjustable, hit.value.hasArmrest);
      }
    }
  }

  /** `Chair.get_match_furniture`: a table offer from the first in-stock option among ids 1..12. */
  method ChairMatch(options: seq<int>, rows: seq<Inventory.Row>, fault: bool) returns (a: Advert)
    ensures fault ==> a == UniqueItem
    ensures a == UniqueItem <==> fault || forall j :: 0 <= j < |options| ==> !InStock(rows, 1, 12, options[j])
    ensures a != UniqueItem ==>
      exists i :: (0 <= i < |options| && InStock(rows, 1, 12, options[i]) &&
                   (forall j :: 0 <= j < i ==> !InStock(rows, 1, 12, options[j])) &&
                   var row := Inventory.RowById(rows, options[i]).value;
                   a == TableOffer(row.fDesc, row.material))
  {
    a := UniqueItem;
    if !fault {
      var hit := ScanForMatch(1, 12, options, rows);
      if hit.Some? {
        a := TableOffer(hit.value.fDesc, hit.value.material);
      }
    }
  }

  /** `Print_matching_product_advertisement` without the printing: look the object's key up in
      its class's table and scan the listed ids. */
  method Advertise(f: Furniture, rows: seq<Inventory.Row>, fault: bool) returns (a: Advert)
    ensures IsTableKind(f.kind) ==> !a.TableOffer?
    ensures !IsTableKind(f.kind) ==> !a.ChairOffer?
    ensures a == UniqueItem <==>
      fault || forall j :: 0 <= j < |MatchOptions(f)| ==>
        !InStock(rows, if IsTableKind(f.kind) then 13 else 1, if IsTableKind(f.kind) then 28 else 12,
                 MatchOptions(f)[j])
    ensures IsTableKind(f.kind) && a != UniqueItem ==>
      exists i :: (0 <= i < |MatchOptions(f)| && InStock(rows, 13, 28, MatchOptions(f)[i]) &&
                   (forall j :: 0 <= j < i ==> !InStock(rows, 13, 28, MatchOptions(f)[j])) &&
                   var row := Inventory.RowById(rows, MatchOptions(f)[i]).value;
                   a == ChairOffer(row.fDesc, row.isAdjustable, row.hasArmrest))
    ensures !IsTableKind(f.kind) && a != UniqueItem ==>
      exists i :: (0 <= i < |MatchOptions(f)| && InStock(rows, 1, 12, MatchOptions(f)[i]) &&
                   (forall j :: 0 <= j < i ==> !InStock(rows, 1, 12, MatchOptions(f)[j])) &&
                   var row := Inventory.RowById(rows, MatchOptions(f)[i]).value;
                   a == TableOffer(row.fDesc, row.material))
  {
    if IsTableKind(f.kind) {
      a := TableMatch(MatchOptions(f), rows, fault);
    } else {
      a := ChairMatch(MatchOptions(f), rows, fault);
    }
  }
}
