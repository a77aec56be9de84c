/** The application's order (app/models/order.py): built from a cart, stored through a database
    insert that yields its id, and moved along PENDING, SHIPPED, DELIVERED. The database speaks
    through parameters: the outcome of the order insert and of the status commit. */
module AppOrder {
  import opened Py
  import opened Enums
  import opened AppCart

  /** The message `_save_to_db` re-raises any failure with. */
  function SaveError(e: Exception): Exception
  {
    Error("Error saving order to database: " + Message(e))
  }

  /** `_save_to_db` as written: after the order row is inserted (`insert` is its new id or the
      database's exception), `self.items.items()` is called on a list, which raises
      `AttributeError`; every path ends in the re-raised error. */
  function SaveAsWritten(insert: Result<nat>): (r: Result<nat>)
    ensures r.Err?
    ensures insert.Err? ==> r.error == SaveError(insert.error)
    ensures insert.Ok? ==> r.error.Error? && r != Save(insert)
  {
    match insert
    case Err(e) => Err(SaveError(e))
    case Ok(_) => Err(SaveError(AttributeError("'list' object has no attribute 'items'")))
  }

  /** `_save_to_db` iterating the `[furniture, amount]` entries of the list: the order gets the
      inserted id, and a failed insert is re-raised. The contained-item rows are not written:
      their id lookup `get_index_furniture_by_values(item)` passes one argument to a function of
      two, so as written it would raise `TypeError` for every entry. */
  function Save(insert: Result<nat>): (r: Result<nat>)
    ensures r.Ok? <==> insert.Ok?
    ensures r.Ok? ==> r.value == insert.value
    ensures r.Err? ==> r.error == SaveError(insert.error)
  {
    match insert
    case Err(e) => Err(SaveError(e))
    case Ok(id) => Ok(id)
  }

  class Order {
    var userMail: string
    /** The cart's total at construction. */
    var totalPrice: int
    /** An `OrderStatus` value. */
    var status: int
    /** The copy of the cart's entries taken at construction. */
    var items: seq<Entry>
    var couponId: Option<int>
    var id: Option<nat>

    predicate Valid()
      reads this
    {
      StatusValue(Pending) <= status <= StatusValue(Delivered)
    }

    /** The field set-up of `__init__`, before the order is saved. */
    constructor (userMail: string, totalPrice: int, items: seq<Entry>, couponId: Option<int>)
      ensures this.userMail == userMail && this.totalPrice == totalPrice
      ensures this.items == items && this.couponId == couponId
      ensures status == StatusValue(Pending) && id == None
      ensures Valid()
    {
      this.userMail := userMail;
      this.totalPrice := totalPrice;
      status := StatusValue(Pending);
      this.items := items;
      this.couponId := couponId;
      id := None;
    }

    /** `Order(user_mail, cart, coupon_id)` as written: a value that is not a cart (`null`)
        raises `ValueError`; the cart's total raises `AttributeError` for a non-empty cart, before
        any save; an empty cart reaches the save, which raises as written. No order is ever
        built. */
    static method Create(userMail: string, cart: Cart?, couponId: Option<int>, insert: Result<nat>)
      returns (r: Result<Order>)
      ensures r.Err?
      ensures cart == null ==> r == Err(ValueError("Invalid cart. Must be an instance of ShoppingCart."))
      ensures cart != null && cart.items != [] ==> r == Err(NoPriceOnEntry)
      ensures cart != null && cart.items == [] ==> r == Err(SaveAsWritten(insert).error)
      ensures cart != null && cart.items == [] && insert.Err? ==> r == Err(SaveError(insert.error))
    {
      if cart == null {
        return Err(ValueError("Invalid cart. Must be an instance of ShoppingCart."));
      }
      match TotalPriceAsWritten(cart.items)
      case Err(e) =>
        r := Err(e);
      case Ok(total) =>
        r := Err(SaveAsWritten(insert).error);
    }

    /** `Order(user_mail, cart, coupon_id)` with the intended total and the intended save: an
        unpriced entry raises the total's `TypeError` unwrapped; otherwise the order holds the
        total and a copy of the entries, and is built exactly when the insert succeeds. */
    static method CreateCorrected(userMail: string, cart: Cart?, couponId: Option<int>, insert: Result<nat>)
      returns (r: Result<Order>)
      ensures cart == null ==> r == Err(ValueError("Invalid cart. Must be an instance of ShoppingCart."))
      ensures cart != null && TotalPrice(cart.items).Err? ==> r == Err(TotalPrice(cart.items).error)
      ensures cart != null && TotalPrice(cart.items).Ok? ==> (r.Ok? <==> insert.Ok?)
      ensures cart != null && TotalPrice(cart.items).Ok? && insert.Err? ==> r == Err(SaveError(insert.error))
      ensures r.Ok? ==>
        fresh(r.value) && r.value.Valid() && r.value.status == StatusValue(Pending) &&
        r.value.userMail == userMail && r.value.totalPrice == TotalPrice(cart.items).value &&
        r.value.items == cart.items && r.value.couponId == couponId && r.value.id == Some(insert.value)
    {
      if cart == null {
        return Err(ValueError("Invalid cart. Must be an instance of ShoppingCart."));
      }
      match TotalPrice(cart.items)
      case Err(e) =>
        r := Err(e);
      case Ok(total) =>
        var order := new Order(userMail, total, cart.items, couponId);
        match Save(insert)
        case Err(e) =>
          r := Err(e);
        case Ok(id) =>
          order.id := Some(id);
          r := Ok(order);
    }

    /** `update_status()`: one step along PENDING, SHIPPED, DELIVERED once the database commits
        (`commitOk`); a failed commit is swallowed. DELIVERED, or a value that is no status,
        raises. Nothing else changes. */
    method UpdateStatus(commitOk: bool) returns (r: Outcome)
      modifies this`status
      ensures StatusByValue(old(status)).None? || old(status) == StatusValue(Delivered) ==>
        r == Raise(ValueError("Order is already in final status (DELIVERED)")) && status == old(status)
      ensures StatusByValue(old(status)).Some? && old(status) != StatusValue(Delivered) ==>
        r == Pass && status == (if commitOk then old(status) + 1 else old(status))
    {
      var current := StatusByValue(status);
      if current.None? || current.value == Delivered {
        return Raise(ValueError("Order is already in final status (DELIVERED)"));
      }
      StatusSuccessor(current.value);
      var next := StatusByValue(StatusValue(current.value) + 1).value;
      if commitOk {
        status := StatusValue(next);
      }
      r := Pass;
    }

    /** `get_status()`: the member name of the status; a value that is no status raises
        `ValueError`. */
    function GetStatus(): (r: Result<string>)
      reads this
      ensures r.Ok? <==> Valid()
      ensures r.Ok? ==> r.value == StatusName(StatusByValue(status).value)
      ensures r.Err? ==> r.error.ValueError?
    {
      match StatusByValue(status)
      case None => Err(ValueError("not a valid OrderStatus"))
      case Some(s) => Ok(StatusName(s))
    }
  }

  /** The status stays within PENDING..DELIVERED whatever `update_status` does. */
  method UpdateKeepsValid(order: Order, commitOk: bool) returns (r: Outcome)
    requires order.Valid()
    modifies order
    ensures order.Valid()
    ensures r.Raise? <==> old(order.status) == StatusValue(Delivered)
  {
    r := order.UpdateStatus(commitOk);
  }

  /** A new order, moved on three times with every commit succeeding, is SHIPPED, then
      DELIVERED, and then refuses. */
  method Lifecycle(userMail: string) returns (first: string, second: string, third: Outcome)
    ensures first == "SHIPPED" && second == "DELIVERED"
    ensures third == Raise(ValueError("Order is already in final status (DELIVERED)"))
  {
    var cart := new Cart();
    var created := Order.CreateCorrected(userMail, cart, None, Ok(1));
    var order := created.value;
    var r := order.UpdateStatus(true);
    first := order.GetStatus().value;
    r := order.UpdateStatus(true);
    second := order.GetStatus().value;
    third := order.UpdateStatus(true);
  }
}
