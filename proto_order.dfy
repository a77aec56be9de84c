/** The prototype order at the repository root (order.py): orders numbered from a class-wide
    counter, built from a prototype cart, with a status that can be overwritten until the order
    is delivered. */
module ProtoOrder {
  import opened Py
  import opened Text
  import opened Enums
  import opened ProtoCart
  import Furnitures
  import Utils

  /** One order line: the item's type value, its name as the id, its price, and quantity 1. */
  datatype OrderItem = OrderItem(furnitureType: int, furnitureId: string, price: int, quantity: int)

  /** How a class name is turned into a `FurnitureType` member name: upper-cased as written
      (`DiningTable` gives `DININGTABLE`), or snake-cased as `transform_pascal_to_snake` does
      (`DINING_TABLE`). */
  datatype NameRule = UpperCased | SnakeCased

  /** The `FurnitureType` member name the rule derives from a class name. */
  function MemberName(className: string, rule: NameRule): string
  {
    if rule == UpperCased then Upper(className) else Utils.PascalToSnake(className)
  }

  /** `FurnitureType[name].value` for the member name the rule derives from `className`; a name
      that is no member raises `KeyError`. */
  function ItemType(className: string, rule: NameRule): (r: Result<int>)
    ensures r.Ok? ==> 1 <= r.value <= 5
    ensures r.Err? <==> TypeByName(MemberName(className, rule)).None?
    ensures r.Ok? ==> r.value == TypeValue(TypeByName(MemberName(className, rule)).value)
    ensures r.Err? ==> r.error == KeyError(MemberName(className, rule))
  {
    var name := MemberName(className, rule);
    match TypeByName(name)
    case None => Err(KeyError(name))
    case Some(t) => Ok(TypeValue(t))
  }

  /** The comprehension over the cart's items: one line per item, in cart order, or the first
      item's `KeyError`. */
  function OrderItems(items: seq<ProtoItem>, rule: NameRule): (r: Result<seq<OrderItem>>)
    ensures r.Ok? <==> forall i :: 0 <= i < |items| ==> ItemType(items[i].className, rule).Ok?
    ensures r.Ok? ==> |r.value| == |items|
    ensures r.Ok? ==> forall i :: 0 <= i < |items| ==>
      r.value[i] == OrderItem(ItemType(items[i].className, rule).value, items[i].name, items[i].price, 1)
    ensures r.Err? ==> exists i :: 0 <= i < |items| && ItemType(items[i].className, rule) == Err(r.error)
  {
    if items == [] then Ok([])
    else
      match ItemType(items[0].className, rule)
      case Err(e) => Err(e)
      case Ok(v) =>
        match OrderItems(items[1..], rule)
        case Err(e) =>
          assert forall i :: 1 <= i < |items| ==> items[1..][i - 1] == items[i];
          Err(e)
        case Ok(rest) =>
          assert forall i :: 1 <= i < |items| ==> items[1..][i - 1] == items[i];
          Ok([OrderItem(v, items[0].name, items[0].price, 1)] + rest)
  }

  /** `Order._order_counter`, the class attribute that numbers the orders. */
  class OrderCounter {
    var next: nat

    constructor ()
      ensures next == 1
    {
      next := 1;
    }
  }

  class Order {
    var id: nat
    var userId: int
    var status: int
    var items: seq<OrderItem>

    constructor (id: nat, userId: int, items: seq<OrderItem>)
      ensures this.id == id && this.userId == userId && this.items == items
      ensures status == StatusValue(Pending)
    {
      this.id := id;
      this.userId := userId;
      this.items := items;
      status := StatusValue(Pending);
    }

    /** `Order(user_id, cart)`. A value that is not a prototype cart (`null`) raises before the
        counter moves. Otherwise the order takes the counter as its id and the counter advances,
        even when building the lines then raises; the lines use the corrected type lookup. */
    static method Create(counter: OrderCounter, userId: int, cart: Cart?) returns (r: Result<Order>)
      modifies counter
      ensures cart == null ==>
        r == Err(ValueError("Invalid cart. Must be an instance of ShoppingCart.")) &&
        counter.next == old(counter.next)
      ensures cart != null ==> counter.next == old(counter.next) + 1
      ensures cart != null ==> (r.Ok? <==> OrderItems(cart.items, SnakeCased).Ok?)
      ensures cart != null && r.Err? ==> r.error == OrderItems(cart.items, SnakeCased).error
      ensures r.Ok? ==>
        fresh(r.value) && r.value.id == old(counter.next) && r.value.userId == userId &&
        r.value.status == StatusValue(Pending) && r.value.items == OrderItems(cart.items, SnakeCased).value
    {
      if cart == null {
        return Err(ValueError("Invalid cart. Must be an instance of ShoppingCart."));
      }
      var id := counter.next;
      counter.next := counter.next + 1;
      match OrderItems(cart.items, SnakeCased)
      case Err(e) =>
        r := Err(e);
      case Ok(lines) =>
        var order := new Order(id, userId, lines);
        r := Ok(order);
    }

    /** `update_status(new_status)`: refused once delivered; otherwise any status, an earlier one
        included, is taken. */
    method UpdateStatus(newStatus: OrderStatus) returns (ok: bool)
      modifies this`status
      ensures old(status) == StatusValue(Delivered) ==> !ok && status == old(status)
      ensures old(status) != StatusValue(Delivered) ==> ok && status == StatusValue(newStatus)
    {
      if status == StatusValue(Delivered) {
        return false;
      }
      status := StatusValue(newStatus);
      ok := true;
    }
  }

  /** The first two orders of a fresh counter get the ids 1 and 2. */
  method ConsecutiveIds(userId: int) returns (first: nat, second: nat)
    ensures first == 1 && second == 2
  {
    var counter := new OrderCounter();
    var cart := new Cart(None);
    var a := Order.Create(counter, userId, cart);
    first := a.value.id;
    var b := Order.Create(counter, userId, cart);
    second := b.value.id;
  }

  /** Every `FurnitureType` member name has an underscore. */
  lemma TypeNameHasUnderscore(t: FurnitureType)
    ensures exists j :: 0 <= j < |TypeName(t)| && TypeName(t)[j] == '_'
  {
    match t
    case DiningTable => assert TypeName(t)[6] == '_';
    case WorkDesk => assert TypeName(t)[4] == '_';
    case CoffeeTable => assert TypeName(t)[6] == '_';
    case WorkChair => assert TypeName(t)[4] == '_';
    case GamingChair => assert TypeName(t)[6] == '_';
  }

  /** Upper-casing brings in no underscore. */
  lemma UpperKeepsNoUnderscore(s: string)
    requires forall j :: 0 <= j < |s| ==> s[j] != '_'
    ensures forall j :: 0 <= j < |Upper(s)| ==> Upper(s)[j] != '_'
  {
    forall j | 0 <= j < |Upper(s)|
      ensures Upper(s)[j] != '_'
    {
      assert Upper(s)[j] == UpperChar(s[j]);
    }
  }

  /** As written: a class name without an underscore, upper-cased, names no member, so the
      lookup raises `KeyError`. */
  lemma ItemTypeAsWrittenRaises(className: string)
    requires forall j :: 0 <= j < |className| ==> className[j] != '_'
    ensures ItemType(className, UpperCased) == Err(KeyError(Upper(className)))
  {
    UpperKeepsNoUnderscore(className);
    forall t: FurnitureType
      ensures TypeName(t) != Upper(className)
    {
      TypeNameHasUnderscore(t);
    }
  }

  /** The five class names are two capitalised words and have no underscore. */
  lemma ClassNameHasNoUnderscore(k: FurnitureType)
    ensures forall j :: 0 <= j < |Furnitures.ClassName(k)| ==> Furnitures.ClassName(k)[j] != '_'
  {
    match k
    case DiningTable => Utils.DiningTableSpelling(); Utils.UpperDining(); Utils.UpperTable(); WordsHaveNoUnderscore("Dining", "Table");
    case WorkDesk => Utils.WorkDeskSpelling(); Utils.UpperWork(); Utils.UpperDesk(); WordsHaveNoUnderscore("Work", "Desk");
    case CoffeeTable => Utils.CoffeeTableSpelling(); Utils.UpperCoffee(); Utils.UpperTable(); WordsHaveNoUnderscore("Coffee", "Table");
    case WorkChair => Utils.WorkChairSpelling(); Utils.UpperWork(); Utils.UpperChair(); WordsHaveNoUnderscore("Work", "Chair");
    case GamingChair => Utils.GamingChairSpelling(); Utils.UpperGaming(); Utils.UpperChair(); WordsHaveNoUnderscore("Gaming", "Chair");
  }

  lemma WordsHaveNoUnderscore(a: string, b: string)
    requires Utils.IsWord(a) && IsUpper(a[0]) && Utils.IsWord(b) && IsUpper(b[0])
    ensures forall j :: 0 <= j < |a + b| ==> (a + b)[j] != '_'
  {
    forall j | |a| <= j < |a + b|
      ensures (a + b)[j] != '_'
    {
      assert (a + b)[j] == b[j - |a|];
    }
  }

  /** As written, every order line of one of the five furniture classes raises `KeyError`, so
      an order from a cart holding any of them fails once the counter has advanced. */
  lemma OrderItemsAsWrittenFails(items: seq<ProtoItem>, i: nat, k: FurnitureType)
    requires i < |items| && items[i].className == Furnitures.ClassName(k)
    ensures ItemType(Furnitures.ClassName(k), UpperCased).Err?
    ensures OrderItems(items, UpperCased).Err?
  {
    ClassNameHasNoUnderscore(k);
    ItemTypeAsWrittenRaises(Furnitures.ClassName(k));
  }

  /** With the snake-cased name the lookup gives each class's member value. */
  lemma ItemTypeOfClassName(k: FurnitureType)
    ensures ItemType(Furnitures.ClassName(k), SnakeCased) == Ok(TypeValue(k))
  {
    Utils.ClassNameSnakeIsTypeName(k);
  }
}
