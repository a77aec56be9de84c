/** The prototype cart at the repository root (ShoppingCart.py): a plain list of furniture
    objects, appended to and removed from in place. The furniture classes there define no
    `__eq__`, so `in` and `list.remove` compare objects by identity, which `oid` stands for. */
module ProtoCart {
  import opened Py

  /** A furniture object as the prototype order reads it: its class name, `name` and `price`. */
  datatype ProtoItem = ProtoItem(oid: nat, className: string, name: string, price: int)

  /** `furniture in items` */
  predicate Contains(items: seq<ProtoItem>, oid: nat)
  {
    exists i :: 0 <= i < |items| && items[i].oid == oid
  }

  /** The position of the first occurrence of the object. */
  function FirstIndexOf(items: seq<ProtoItem>, oid: nat): (i: nat)
    requires Contains(items, oid)
    ensures i < |items| && items[i].oid == oid
    ensures forall j :: 0 <= j < i ==> items[j].oid != oid
  {
    if items[0].oid == oid then 0
    else
      TailHolds(items, oid);
      1 + FirstIndexOf(items[1..], oid)
  }

  /** `items.remove(furniture)`: the list without the first occurrence of the object. */
  function RemoveFirstByOid(items: seq<ProtoItem>, oid: nat): seq<ProtoItem>
  {
    if items == [] then []
    else if items[0].oid == oid then items[1..]
    else [items[0]] + RemoveFirstByOid(items[1..], oid)
  }

  class Cart {
    var items: seq<ProtoItem>
    /** `None` for a guest, otherwise the owning user. */
    var user: Option<nat>

    constructor (user: Option<nat>)
      ensures items == [] && this.user == user
    {
      items := [];
      this.user := user;
    }

    /** `add_item(furniture)`: appended at the end, even when the object is already listed. */
    method AddItem(f: ProtoItem)
      modifies this`items
      ensures items == old(items) + [f]
    {
      items := items + [f];
    }

    /** `remove_item(furniture)`: drops the first occurrence, or raises when the object is not
        listed, leaving the list as it was. */
    method RemoveItem(f: ProtoItem) returns (r: Outcome)
      modifies this`items
      ensures Contains(old(items), f.oid) ==> r == Pass && items == RemoveFirstByOid(old(items), f.oid)
      ensures !Contains(old(items), f.oid) ==>
        r == Raise(ValueError("Item not in cart")) && items == old(items)
    {
      if exists i :: 0 <= i < |items| && items[i].oid == f.oid {
        items := RemoveFirstByOid(items, f.oid);
        r := Pass;
      } else {
        r := Raise(ValueError("Item not in cart"));
      }
    }
  }

  /** `__repr__` of a cart holding `items`, in this prototype and, with the same text, in the
      application's cart: the fixed text for an empty cart; the listing of a non-empty one is not
      modelled. */
  function Describe<T>(items: seq<T>): (r: Option<string>)
    ensures r.Some? <==> |items| == 0
    ensures r.Some? ==> r.value == "Shopping cart is empty."
  {
    if |items| == 0 then Some("Shopping cart is empty.") else None
  }

  /** `list.remove` cuts out exactly the first occurrence and keeps the other items in order. */
  lemma {:induction false} RemoveFirstCutsFirstOccurrence(items: seq<ProtoItem>, oid: nat)
    requires Contains(items, oid)
    ensures var i := FirstIndexOf(items, oid);
      RemoveFirstByOid(items, oid) == items[..i] + items[i + 1..]
    ensures |RemoveFirstByOid(items, oid)| == |items| - 1
  {
    if items[0].oid != oid {
      var tail := items[1..];
      TailHolds(items, oid);
      RemoveFirstCutsFirstOccurrence(tail, oid);
      var i := FirstIndexOf(tail, oid);
      assert FirstIndexOf(items, oid) == i + 1;
      assert items[..i + 1] == [items[0]] + tail[..i];
      assert items[i + 2..] == tail[i + 1..];
    }
  }

  /** A list that does not hold the object is left as it is. */
  lemma {:induction false} RemoveFirstMissing(items: seq<ProtoItem>, oid: nat)
    requires !Contains(items, oid)
    ensures RemoveFirstByOid(items, oid) == items
  {
    if items != [] {
      TailLacks(items, oid);
      RemoveFirstMissing(items[1..], oid);
      assert items == [items[0]] + items[1..];
    }
  }

  lemma TailHolds(items: seq<ProtoItem>, oid: nat)
    requires Contains(items, oid) && items[0].oid != oid
    ensures Contains(items[1..], oid)
  {
    var k :| 0 <= k < |items| && items[k].oid == oid;
    assert items[1..][k - 1] == items[k];
  }

  lemma TailLacks(items: seq<ProtoItem>, oid: nat)
    requires items != [] && !Contains(items, oid)
    ensures !Contains(items[1..], oid)
  {
    forall j | 0 <= j < |items[1..]|
      ensures items[1..][j].oid != oid
    {
      assert items[1..][j] == items[j + 1];
    }
  }

  /** Appending an object the list does not hold and then removing it restores the list. */
  lemma {:induction false} AddThenRemoveRestores(items: seq<ProtoItem>, f: ProtoItem)
    requires !Contains(items, f.oid)
    ensures Contains(items + [f], f.oid)
    ensures RemoveFirstByOid(items + [f], f.oid) == items
  {
    var added := items + [f];
    assert added[|items|] == f;
    if items != [] {
      TailLacks(items, f.oid);
      AddThenRemoveRestores(items[1..], f);
      assert added[0] == items[0] && added[1..] == items[1..] + [f];
      assert items == [items[0]] + items[1..];
    } else {
      assert added[1..] == [];
    }
  }
}
