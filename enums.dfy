/** The `FurnitureType` and `OrderStatus` enumerations (app/models/EnumsClass.py). */
module Enums {
  import opened Py

  datatype FurnitureType = DiningTable | WorkDesk | CoffeeTable | WorkChair | GamingChair

  /** `FurnitureType.X.value` */
  function TypeValue(t: FurnitureType): int
  {
    match t
    case DiningTable => 1
    case WorkDesk => 2
    case CoffeeTable => 3
    case WorkChair => 4
    case GamingChair => 5
  }

  /** `FurnitureType.X.name` */
  function TypeName(t: FurnitureType): string
  {
    match t
    case DiningTable => "DINING_TABLE"
    case WorkDesk => "WORK_DESK"
    case CoffeeTable => "COFFEE_TABLE"
    case WorkChair => "WORK_CHAIR"
    case GamingChair => "GAMING_CHAIR"
  }

  /** `FurnitureType[name]`; `None` stands for the `KeyError`. */
  function TypeByName(name: string): (r: Option<FurnitureType>)
    ensures r.Some? ==> TypeName(r.value) == name
    ensures r.None? ==> forall t :: TypeName(t) != name
  {
    if name == "DINING_TABLE" then Some(DiningTable)
    else if name == "WORK_DESK" then Some(WorkDesk)
    else if name == "COFFEE_TABLE" then Some(CoffeeTable)
    else if name == "WORK_CHAIR" then Some(WorkChair)
    else if name == "GAMING_CHAIR" then Some(GamingChair)
    else None
  }

  /** `FurnitureType(value)`; `None` stands for the `ValueError`. */
  function TypeByValue(v: int): (r: Option<FurnitureType>)
    ensures r.Some? ==> TypeValue(r.value) == v
    ensures r.None? ==> forall t :: TypeValue(t) != v
  {
    if v == 1 then Some(DiningTable)
    else if v == 2 then Some(WorkDesk)
    else if v == 3 then Some(CoffeeTable)
    else if v == 4 then Some(WorkChair)
    else if v == 5 then Some(GamingChair)
    else None
  }

  /** The five members carry the distinct values 1..5, and every value in 1..5 is taken. */
  lemma TypeValuesAreOneToFive()
    ensures forall t :: 1 <= TypeValue(t) <= 5
    ensures forall t, u :: TypeValue(t) == TypeValue(u) ==> t == u
    ensures forall v :: 1 <= v <= 5 <==> TypeByValue(v).Some?
  {
  }

  /** Member names are distinct, and name lookup inverts `TypeName`. */
  lemma TypeNameRoundTrip(t: FurnitureType)
    ensures TypeByName(TypeName(t)) == Some(t)
    ensures TypeByValue(TypeValue(t)) == Some(t)
  {
  }

  datatype OrderStatus = Pending | Shipped | Delivered

  /** `OrderStatus.X.value` */
  function StatusValue(s: OrderStatus): int
  {
    match s
    case Pending => 1
    case Shipped => 2
    case Delivered => 3
  }

  /** `OrderStatus.X.name` */
  function StatusName(s: OrderStatus): string
  {
    match s
    case Pending => "PENDING"
    case Shipped => "SHIPPED"
    case Delivered => "DELIVERED"
  }

  /** `OrderStatus(value)`; `None` stands for the `ValueError`. */
  function StatusByValue(v: int): (r: Option<OrderStatus>)
    ensures r.Some? ==> StatusValue(r.value) == v
    ensures r.None? ==> forall s :: StatusValue(s) != v
  {
    if v == 1 then Some(Pending)
    else if v == 2 then Some(Shipped)
    else if v == 3 then Some(Delivered)
    else None
  }

  /** `value + 1` names a status for every status but DELIVERED, which is the largest. */
  lemma StatusSuccessor(s: OrderStatus)
    ensures StatusByValue(StatusValue(s) + 1).Some? <==> s != Delivered
    ensures StatusValue(s) <= StatusValue(Delivered)
    ensures StatusByValue(StatusValue(s)) == Some(s)
  {
  }
}
