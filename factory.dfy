/** `FurnitureFactory.create_furniture` (app/models/FurnitureFactory.py): an enum lookup on the
    upper-cased type name, then a dispatch on the member's value to one of the five classes,
    which are called with the caller's keyword arguments. */
module Factory {
  import opened Py
  import opened Text
  import opened Enums
  import opened Furnitures

  /** Python's binding of `**kwargs` to a constructor whose parameters are `params` (none has a
      default): a keyword that is no parameter, or a parameter with no keyword, raises
      `TypeError`; otherwise the arguments in parameter order. */
  function Bind(params: seq<string>, kwargs: map<string, Value>): (r: Result<seq<Value>>)
    ensures r.Ok? <==> kwargs.Keys == set p | p in params
    ensures r.Err? ==> r.error.TypeError?
    ensures r.Ok? ==> |r.value| == |params| && forall i :: 0 <= i < |params| ==> r.value[i] == kwargs[params[i]]
  {
    if exists key :: key in kwargs && key !in params then
      Err(TypeError("got an unexpected keyword argument"))
    else if exists i :: 0 <= i < |params| && params[i] !in kwargs then
      Err(TypeError("missing a required argument"))
    else
      Ok(seq(|params|, i requires 0 <= i < |params| => kwargs[params[i]]))
  }

  /** `create_furniture(furniture_type, **kwargs)`. `oid` is the identity the new object gets and
      `info` what its constructor reads from the stock table. */
  function CreateFurniture(typeName: string, kwargs: map<string, Value>, oid: nat, info: Info): Result<Furniture>
  {
    match TypeByName(Upper(typeName))
    case None => Err(ValueError("Unknown furniture type: " + typeName))
    case Some(t) =>
      match TypeByValue(TypeValue(t))
      case None => Err(ValueError("Unknown furniture type value"))
      case Some(k) =>
        match Bind(Params(k), kwargs)
        case Err(e) => Err(e)
        case Ok(args) => Construct(oid, k, args, info)
  }

  /** The dispatch: enum value 1..5 selects DiningTable, WorkDesk, CoffeeTable, WorkChair and
      GamingChair, and the final `else` is never reached because every member's value is one of
      those five. */
  lemma DispatchCoversEveryMember(t: FurnitureType)
    ensures TypeByValue(TypeValue(t)) == Some(t)
    ensures TypeByValue(1) == Some(DiningTable) && TypeByValue(2) == Some(WorkDesk)
    ensures TypeByValue(3) == Some(CoffeeTable) && TypeByValue(4) == Some(WorkChair)
    ensures TypeByValue(5) == Some(GamingChair)
  {
  }

  /** The type name is matched without regard to case: every casing of a member name selects the
      same member and builds the same object. */
  lemma CreateIgnoresCase(typeName: string, kwargs: map<string, Value>, oid: nat, info: Info)
    ensures CreateFurniture(Lower(typeName), kwargs, oid, info).Ok? ==>
      CreateFurniture(Lower(typeName), kwargs, oid, info) == CreateFurniture(typeName, kwargs, oid, info)
    ensures TypeByName(Upper(Lower(typeName))) == TypeByName(Upper(typeName))
  {
    UpperOfLower(typeName);
  }

  lemma {:induction false} UpperOfLower(s: string)
    ensures Upper(Lower(s)) == Upper(s)
  {
    assert forall i :: 0 <= i < |s| ==> Upper(Lower(s))[i] == Upper(s)[i];
  }

  /** A name that is no member name, in any casing, raises `ValueError` naming it. */
  lemma UnknownTypeRaisesValueError(typeName: string, kwargs: map<string, Value>, oid: nat, info: Info)
    requires forall t :: TypeName(t) != Upper(typeName)
    ensures CreateFurniture(typeName, kwargs, oid, info) == Err(ValueError("Unknown furniture type: " + typeName))
  {
  }

  /** A created object is of the class the upper-cased name selects, with the given identity and
      the price, name and description read at construction. */
  lemma CreatedHasSelectedClass(typeName: string, kwargs: map<string, Value>, oid: nat, info: Info)
    requires CreateFurniture(typeName, kwargs, oid, info).Ok?
    ensures TypeByName(Upper(typeName)).Some?
    ensures CreateFurniture(typeName, kwargs, oid, info).value.kind == TypeByName(Upper(typeName)).value
    ensures CreateFurniture(typeName, kwargs, oid, info).value.price == Some(info.price)
  {
    DispatchCoversEveryMember(TypeByName(Upper(typeName)).value);
  }

  /** Keyword attributes pass through unchanged: a created table has the given colour and
      material, a created chair the given colour and flags. */
  lemma AttributesPassThrough(typeName: string, kwargs: map<string, Value>, oid: nat, info: Info)
    requires CreateFurniture(typeName, kwargs, oid, info).Ok?
    ensures var f := CreateFurniture(typeName, kwargs, oid, info).value;
      && "color" in kwargs && kwargs["color"] == PyStr(f.color)
      && f.oid == oid && WellFormed(f)
      && (f.extra.TableAttrs? ==> "material" in kwargs && kwargs["material"] == PyStr(f.extra.material))
      && (f.extra.ChairAttrs? ==>
            "is_adjustable" in kwargs && kwargs["is_adjustable"] == PyBool(f.extra.isAdjustable) &&
            "has_armrest" in kwargs && kwargs["has_armrest"] == PyBool(f.extra.hasArmrest))
  {
    var t := TypeByName(Upper(typeName)).value;
    DispatchCoversEveryMember(t);
    var args := Bind(Params(t), kwargs).value;
    assert "color" in Params(t) && Params(t)[0] == "color";
    if IsTableKind(t) {
      assert Params(t)[1] == "material";
    } else {
      assert Params(t)[1] == "is_adjustable" && Params(t)[2] == "has_armrest";
    }
  }

  /** A missing required attribute raises `TypeError` before any validation. */
  lemma MissingAttributeRaisesTypeError(t: FurnitureType, kwargs: map<string, Value>, oid: nat, info: Info)
    requires exists i :: 0 <= i < |Params(t)| && Params(t)[i] !in kwargs
    ensures CreateFurniture(TypeName(t), kwargs, oid, info).Err?
    ensures CreateFurniture(TypeName(t), kwargs, oid, info).error.TypeError?
  {
    TypeNameRoundTrip(t);
    UpperOfTypeName(t);
    var i :| 0 <= i < |Params(t)| && Params(t)[i] !in kwargs;
    assert Params(t)[i] in set p | p in Params(t);
  }

  /** The member names are already upper-case. */
  lemma UpperOfTypeName(t: FurnitureType)
    ensures Upper(TypeName(t)) == TypeName(t)
  {
    assert NoLower(TypeName(t));
    UpperOfNoLower(TypeName(t));
  }

  /** With exactly the expected keywords, a colour that is not a string raises `TypeError`, and so
      does a table material that is not a string. */
  lemma WrongTypedAttributeRaisesTypeError(t: FurnitureType, kwargs: map<string, Value>, oid: nat, info: Info)
    requires kwargs.Keys == set p | p in Params(t)
    requires !kwargs["color"].PyStr? ||
             (IsTableKind(t) && ValidateColor(t, kwargs["color"]) == Pass && !kwargs["material"].PyStr?)
    ensures CreateFurniture(TypeName(t), kwargs, oid, info).Err?
    ensures CreateFurniture(TypeName(t), kwargs, oid, info).error.TypeError?
  {
    TypeNameRoundTrip(t);
    UpperOfTypeName(t);
    var args := Bind(Params(t), kwargs).value;
    assert args[0] == kwargs["color"];
    if IsTableKind(t) {
      assert args[1] == kwargs["material"];
    }
  }
}
