/** `Authentication.validate_credit_card` (app/models/Authentication.py). The class's `__new__`
    singleton is `Singleton.InstanceSlot`; password hashing is not part of this model. */
module Authentication {
  import opened Py

  /** `validate_credit_card(total_price, credit_card_num)`: nothing to pay needs no card;
      otherwise the number only has to be an `int`. */
  function ValidateCreditCard(totalPrice: Value, cardNumber: Value): bool
  {
    if !Truthy(totalPrice) then true
    else if IsInstanceInt(cardNumber) then true
    else false
  }

  /** The rule in full: accepted exactly when there is nothing to pay or the number is an
      `int` (a `bool` included). */
  lemma CardRule(totalPrice: Value, cardNumber: Value)
    ensures ValidateCreditCard(totalPrice, cardNumber) <==>
      (!Truthy(totalPrice) || cardNumber.PyInt? || cardNumber.PyBool?)
  {
  }

  /** Digits and length are never looked at: every integer passes, whatever the total. */
  lemma AnyIntegerPasses(totalPrice: Value, n: int)
    ensures ValidateCreditCard(totalPrice, PyInt(n))
  {
  }

  /** A zero, empty or `None` total accepts anything. */
  lemma NothingToPayAcceptsAnyCard(cardNumber: Value)
    ensures ValidateCreditCard(PyInt(0), cardNumber)
    ensures ValidateCreditCard(PyNone, cardNumber)
    ensures ValidateCreditCard(PyStr(""), cardNumber)
  {
  }

  /** The three calls of the test suite. */
  lemma SuiteCases()
    ensures ValidateCreditCard(PyInt(0), PyInt(1234567890))
    ensures ValidateCreditCard(PyInt(100), PyInt(1234567890))
    ensures !ValidateCreditCard(PyInt(100), PyStr("not_a_number"))
  {
  }
}
