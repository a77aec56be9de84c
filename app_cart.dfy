/** The shopping cart of the application (app/models/ShoppingCart.py): a list of
    `[furniture, amount]` entries. Furniture objects define no `__eq__`, so they are compared by
    identity, here their `oid`. */
module AppCart {
  import opened Py
  import opened Furnitures

  /** One `[furniture, amount]` entry. Two entries are `==` when they hold the same object and
      the same amount. */
  datatype Entry = Entry(furniture: Furniture, amount: int)

  /** No object appears in two entries. */
  predicate NoDuplicates(items: seq<Entry>)
  {
    forall i, j :: 0 <= i < j < |items| ==> items[i].furniture.oid != items[j].furniture.oid
  }

  /** Some entry holds the object `oid`. */
  predicate Holds(items: seq<Entry>, oid: nat)
  {
    exists i :: 0 <= i < |items| && items[i].furniture.oid == oid
  }

  /** The last position whose entry holds `oid`: what the scan of `add_item` leaves in
      `index_item`. */
  function LastIndexOf(items: seq<Entry>, oid: nat): (r: Option<nat>)
    ensures r.Some? ==> r.value < |items| && items[r.value].furniture.oid == oid
    ensures r.Some? ==> forall j :: r.value < j < |items| ==> items[j].furniture.oid != oid
    ensures r.None? <==> !Holds(items, oid)
  {
    if items == [] then None
    else if items[|items| - 1].furniture.oid == oid then Some(|items| - 1)
    else LastIndexOf(items[..|items| - 1], oid)
  }

  /** What `add_item(furniture, amount)` returns and leaves in `items`; `available` is the outcome
      of `furniture.check_availability(amount)`, false also when that call raises. */
  function AddSpec(items: seq<Entry>, f: Furniture, amount: int, available: bool): (bool, seq<Entry>)
  {
    if amount < 1 || !available then (false, items)
    else match LastIndexOf(items, f.oid)
      case Some(i) => (true, items[i := Entry(items[i].furniture, amount)])
      case None => (true, items + [Entry(f, amount)])
  }

  /** The position of the first entry equal to `item`. */
  function IndexOfEntry(items: seq<Entry>, item: Entry): (i: nat)
    requires item in items
    ensures i < |items| && items[i] == item
    ensures forall j :: 0 <= j < i ==> items[j] != item
  {
    if items[0] == item then 0 else 1 + IndexOfEntry(items[1..], item)
  }

  /** `items.remove(item)`: drops the first entry equal to `item`. */
  function RemoveFirst(items: seq<Entry>, item: Entry): (r: seq<Entry>)
    requires item in items
    ensures |r| == |items| - 1
  {
    var i := IndexOfEntry(items, item);
    items[..i] + items[i + 1..]
  }

  /** The loop of `remove_item` from list position `pos` on, as Python runs it: the iterator
      keeps a position into the list while entries are removed under it, so the entry after a
      removed one is skipped. Returns the list and whether some entry matched. */
  function RemoveScan(items: seq<Entry>, pos: nat, oid: nat): (r: (seq<Entry>, bool))
    decreases |items| - pos
  {
    if pos >= |items| then (items, false)
    else if items[pos].furniture.oid == oid then
      (RemoveScan(RemoveFirst(items, items[pos]), pos + 1, oid).0, true)
    else RemoveScan(items, pos + 1, oid)
  }

  /** The items without the entries that hold `oid`. */
  function Without(items: seq<Entry>, oid: nat): seq<Entry>
  {
    if items == [] then []
    else (if items[0].furniture.oid == oid then [] else [items[0]]) + Without(items[1..], oid)
  }

  class Cart {
    var items: seq<Entry>

    /** `ShoppingCart(user)`: a new cart is empty. The `user` attribute is not modelled. */
    constructor ()
      ensures items == []
    {
      items := [];
    }

    /** `add_item(furniture, amount)` */
    method AddItem(f: Furniture, amount: int, available: bool) returns (ok: bool)
      modifies this
      ensures (ok, items) == AddSpec(old(items), f, amount, available)
      ensures !ok ==> items == old(items)
      ensures ok <==> amount >= 1 && available
    {
      ok := false;
      if amount < 1 {
        return;
      }
      var isInItems := false;
      var indexItem := -1;
      var i := 0;
      while i < |items|
        invariant 0 <= i <= |items|
        invariant isInItems <==> Holds(items[..i], f.oid)
        invariant isInItems ==> 0 <= indexItem < i && LastIndexOf(items[..i], f.oid) == Some(indexItem as nat)
      {
        if f.oid == items[i].furniture.oid {
          isInItems := true;
          indexItem := i;
        }
        assert items[..i + 1][..i] == items[..i];
        i := i + 1;
      }
      assert items[..i] == items;
      if isInItems {
        if available {
          items := items[indexItem := Entry(items[indexItem].furniture, amount)];
          ok := true;
        }
      } else {
        if available {
          items := items + [Entry(f, amount)];
          ok := true;
        }
      }
    }

    /** `remove_item(furniture)`: `ValueError` when no entry held it; the loop is Python's
        iterate-while-removing. */
    method RemoveItem(f: Furniture) returns (r: Outcome)
      modifies this
      ensures items == RemoveScan(old(items), 0, f.oid).0
      ensures r == Pass <==> RemoveScan(old(items), 0, f.oid).1
      ensures r != Pass ==> r == Raise(ValueError("Item not in cart - nothing to remove")) && items == old(items)
    {
      var isInItems := false;
      var pos := 0;
      while pos < |items|
        invariant RemoveScan(items, pos, f.oid).0 == RemoveScan(old(items), 0, f.oid).0
        invariant isInItems || RemoveScan(items, pos, f.oid).1 <==> RemoveScan(old(items), 0, f.oid).1
        invariant !isInItems ==> items == old(items)
        decreases |items| - pos
      {
        var item := items[pos];
        if item.furniture.oid == f.oid {
          items := RemoveFirst(items, item);
          isInItems := true;
        }
        pos := pos + 1;
      }
      if !isInItems {
        return Raise(ValueError("Item not in cart - nothing to remove"));
      }
      return Pass;
    }
  }

  /** The message of the `AttributeError` a `[furniture, amount]` entry raises when asked for
      its `price`. */
  const NoPriceOnEntry := AttributeError("'list' object has no attribute 'price'")

  /** `get_total_price()` as written: `sum(item.price for item in self.items)` is 0 for an empty
      cart, and for any other cart the first entry, a list, raises `AttributeError`. */
  function TotalPriceAsWritten(items: seq<Entry>): (r: Result<int>)
    ensures r.Ok? <==> items == []
    ensures r.Ok? ==> r.value == 0
    ensures r.Err? ==> r.error == NoPriceOnEntry
  {
    if items == [] then Ok(0) else Err(NoPriceOnEntry)
  }

  /** What multiplying an unset price raises. */
  const UnsetPriceTimesAmount := TypeError("unsupported operand type(s) for *: 'NoneType' and 'int'")

  /** `get_total_price()` as evidently intended, summing price times amount over the entries (in
      integers): the first entry whose furniture has no price raises `TypeError`. */
  function TotalPrice(items: seq<Entry>): (r: Result<int>)
    ensures r.Ok? <==> forall i :: 0 <= i < |items| ==> items[i].furniture.price.Some?
    ensures r.Err? ==> r.error == UnsetPriceTimesAmount
  {
    if items == [] then Ok(0)
    else
      match items[0].furniture.price
      case None => Err(UnsetPriceTimesAmount)
      case Some(p) =>
        assert forall i :: 1 <= i < |items| ==> items[1..][i - 1] == items[i];
        match TotalPrice(items[1..])
        case Err(e) => Err(e)
        case Ok(t) => Ok(p * items[0].amount + t)
  }

  /** The price of one priced entry. */
  function EntryPrice(e: Entry): int
    requires e.furniture.price.Some?
  {
    e.furniture.price.value * e.amount
  }

  /** Appending a priced entry adds its price times its amount to the total. */
  lemma {:induction false} TotalPriceAppend(items: seq<Entry>, e: Entry)
    requires TotalPrice(items).Ok? && e.furniture.price.Some?
    ensures TotalPrice(items + [e]) == Ok(TotalPrice(items).value + EntryPrice(e))
  {
    if items != [] {
      assert (items + [e])[1..] == items[1..] + [e];
      TotalPriceAppend(items[1..], e);
    }
  }

  /** With non-negative prices and positive amounts, as `add_item` admits, the total is not
      negative. */
  lemma {:induction false} TotalPriceNonNegative(items: seq<Entry>)
    requires forall i :: 0 <= i < |items| ==>
      items[i].furniture.price.Some? && items[i].furniture.price.value >= 0 && items[i].amount >= 1
    ensures TotalPrice(items).Ok? && TotalPrice(items).value >= 0
  {
    if items != [] {
      assert forall i :: 1 <= i < |items| ==> items[1..][i - 1] == items[i];
      TotalPriceNonNegative(items[1..]);
    }
  }

  /** The total as written agrees with the intended one exactly on the empty cart. */
  lemma TotalPriceAsWrittenAgreesOnlyWhenEmpty(items: seq<Entry>)
    ensures TotalPriceAsWritten(items) == TotalPrice(items) <==> items == []
  {
  }

  // ---------------------------------------------------------------------------------------
  // Properties of add_item and remove_item

  /** `add_item` never creates a second entry for an object. */
  lemma AddKeepsNoDuplicates(items: seq<Entry>, f: Furniture, amount: int, available: bool)
    requires NoDuplicates(items)
    ensures NoDuplicates(AddSpec(items, f, amount, available).1)
  {
  }

  /** An object already in the cart has its amount replaced, not summed; its entry keeps its
      place and every other entry is unchanged. */
  lemma AddReplacesAmount(items: seq<Entry>, f: Furniture, amount: int, i: nat)
    requires NoDuplicates(items)
    requires i < |items| && items[i].furniture.oid == f.oid
    requires amount >= 1
    ensures var r := AddSpec(items, f, amount, true).1;
      |r| == |items| && r[i] == Entry(items[i].furniture, amount) &&
      forall j :: 0 <= j < |items| && j != i ==> r[j] == items[j]
  {
  }

  /** An object not in the cart is appended at the end with its amount. */
  lemma AddAppendsNew(items: seq<Entry>, f: Furniture, amount: int)
    requires !Holds(items, f.oid)
    requires amount >= 1
    ensures AddSpec(items, f, amount, true).1 == items + [Entry(f, amount)]
  {
  }

  /** With no position before `pos` or after it holding `oid`, the scan changes nothing. */
  lemma {:induction false} RemoveScanMissing(items: seq<Entry>, pos: nat, oid: nat)
    requires forall j :: pos <= j < |items| ==> items[j].furniture.oid != oid
    ensures RemoveScan(items, pos, oid) == (items, false)
    decreases |items| - pos
  {
    if pos < |items| {
      RemoveScanMissing(items, pos + 1, oid);
    }
  }

  /** In a cart without duplicates the scan drops exactly the entry that holds the object and
      keeps the others in order; it reports a match exactly when there was one. */
  lemma {:induction false} RemoveScanNoDuplicates(items: seq<Entry>, pos: nat, oid: nat)
    requires NoDuplicates(items)
    requires pos <= |items|
    requires forall j :: 0 <= j < pos ==> items[j].furniture.oid != oid
    ensures RemoveScan(items, pos, oid) == (Without(items, oid), Holds(items, oid))
    decreases |items| - pos
  {
    if pos == |items| {
      WithoutMissing(items, oid);
    } else if items[pos].furniture.oid == oid {
      var rest := RemoveFirst(items, items[pos]);
      RemoveFirstAt(items, pos);
      assert rest == items[..pos] + items[pos + 1..];
      forall j | pos + 1 <= j < |rest|
        ensures rest[j].furniture.oid != oid
      {
        assert rest[j] == items[j + 1];
      }
      RemoveScanMissing(rest, pos + 1, oid);
      WithoutAt(items, pos, oid);
    } else {
      RemoveScanNoDuplicates(items, pos + 1, oid);
    }
  }

  /** Without duplicates, the first entry equal to the one at `pos` is that one. */
  lemma RemoveFirstAt(items: seq<Entry>, pos: nat)
    requires NoDuplicates(items)
    requires pos < |items|
    ensures RemoveFirst(items, items[pos]) == items[..pos] + items[pos + 1..]
  {
    assert IndexOfEntry(items, items[pos]) == pos;
  }

  lemma {:induction false} WithoutMissing(items: seq<Entry>, oid: nat)
    requires forall j :: 0 <= j < |items| ==> items[j].furniture.oid != oid
    ensures Without(items, oid) == items
  {
    if items != [] {
      WithoutMissing(items[1..], oid);
    }
  }

  lemma {:induction false} WithoutAppend(a: seq<Entry>, b: seq<Entry>, oid: nat)
    ensures Without(a + b, oid) == Without(a, oid) + Without(b, oid)
  {
    if a == [] {
      assert a + b == b;
    } else {
      assert (a + b)[0] == a[0];
      assert (a + b)[1..] == a[1..] + b;
      WithoutAppend(a[1..], b, oid);
    }
  }

  /** Without duplicates, dropping the entries of `oid` is cutting out its one position. */
  lemma WithoutAt(items: seq<Entry>, pos: nat, oid: nat)
    requires NoDuplicates(items)
    requires pos < |items| && items[pos].furniture.oid == oid
    ensures Without(items, oid) == items[..pos] + items[pos + 1..]
  {
    forall j | 0 <= j < |items| && j != pos
      ensures items[j].furniture.oid != oid
    {
      if j < pos {
        assert items[j].furniture.oid != items[pos].furniture.oid;
      } else {
        assert items[pos].furniture.oid != items[j].furniture.oid;
      }
    }
    WithoutOnly(items, pos, oid);
  }

  lemma {:induction false} WithoutOnly(items: seq<Entry>, pos: nat, oid: nat)
    requires pos < |items| && items[pos].furniture.oid == oid
    requires forall j :: 0 <= j < |items| && j != pos ==> items[j].furniture.oid != oid
    ensures Without(items, oid) == items[..pos] + items[pos + 1..]
  {
    if pos == 0 {
      WithoutMissing(items[1..], oid);
      assert items[..0] + items[1..] == items[1..];
    } else {
      var tail := items[1..];
      assert forall j :: 0 <= j < |tail| && j != pos - 1 ==> tail[j] == items[j + 1];
      WithoutOnly(tail, pos - 1, oid);
      assert tail[..pos - 1] == items[1..pos];
      assert tail[pos..] == items[pos + 1..];
      assert items[..pos] == [items[0]] + items[1..pos];
      assert items[..pos] + items[pos + 1..] == [items[0]] + (items[1..pos] + items[pos + 1..]);
    }
  }

  /** `remove_item` on a cart without duplicates: the object's entry goes, the others stay in
      order; an absent object raises and leaves the cart unchanged. */
  lemma RemoveItemDropsEntry(items: seq<Entry>, oid: nat)
    requires NoDuplicates(items)
    ensures RemoveScan(items, 0, oid).1 <==> Holds(items, oid)
    ensures RemoveScan(items, 0, oid).0 == Without(items, oid)
    ensures Holds(items, oid) ==>
      exists i :: 0 <= i < |items| && items[i].furniture.oid == oid &&
                  RemoveScan(items, 0, oid).0 == items[..i] + items[i + 1..]
    ensures !Holds(items, oid) ==> RemoveScan(items, 0, oid).0 == items
  {
    RemoveScanNoDuplicates(items, 0, oid);
    if Holds(items, oid) {
      var i :| 0 <= i < |items| && items[i].furniture.oid == oid;
      WithoutAt(items, i, oid);
    } else {
      WithoutMissing(items, oid);
    }
  }

  /** Adding an object the cart does not hold and then removing it restores the cart. */
  lemma AddThenRemoveRestores(items: seq<Entry>, f: Furniture, amount: int)
    requires NoDuplicates(items)
    requires !Holds(items, f.oid)
    requires amount >= 1
    ensures RemoveScan(AddSpec(items, f, amount, true).1, 0, f.oid) == (items, true)
  {
    var added := AddSpec(items, f, amount, true).1;
    assert added == items + [Entry(f, amount)];
    AddKeepsNoDuplicates(items, f, amount, true);
    RemoveItemDropsEntry(added, f.oid);
    WithoutAt(added, |items|, f.oid);
    assert added[..|items|] == items && added[|items| + 1..] == [];
    assert added[..|items|] + added[|items| + 1..] == items;
    assert Holds(added, f.oid) by {
      assert added[|items|].furniture.oid == f.oid;
    }
  }
}
