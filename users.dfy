/** The user classes of app/models/Users.py: `BasicUser` validates the e-mail at construction,
    and its `User` and `Manager` subclasses add their own fields. The database row lookup and
    commit of `update_user_details` are parameters. */
module Users {
  import opened Py
  import opened Text
  import Email
  import AppCart

  /** The message `update_user_details` re-raises any failure with. */
  function UpdateError(e: Exception): Exception
  {
    Error("Error updating user details: " + Message(e))
  }

  /** What `BasicUser.__init__` keeps: an accepted address already lower-cased. */
  predicate StoredEmail(email: string)
  {
    Email.Accepts(email) && Lower(email) == email
  }

  /** The validated address satisfies what the stored one must. */
  lemma ValidatedIsStored(email: string)
    requires Email.Validate(email).Ok?
    ensures StoredEmail(Email.Validate(email).value)
  {
    Email.LowerKeepsAccepts(email);
    LowerIdempotent(email);
  }

  class User {
    var name: string
    var email: string
    var password: string
    var address: string
    var cart: AppCart.Cart

    predicate Valid()
      reads this
    {
      StoredEmail(email)
    }

    constructor (name: string, email: string, password: string, address: string)
      ensures this.name == name && this.email == email && this.password == password
      ensures this.address == address && fresh(cart) && cart.items == []
    {
      this.name := name;
      this.email := email;
      this.password := password;
      this.address := address;
      cart := new AppCart.Cart();
    }

    /** `User(name, email, password, address)`: raises the e-mail check's `ValueError`, or stores
        the lower-cased e-mail with the other fields and a new empty cart. */
    static method New(name: string, email: string, password: string, address: string) returns (r: Result<User>)
      ensures Email.Validate(email).Err? ==> r == Err(ValueError("Invalid email format"))
      ensures Email.Validate(email).Ok? ==>
        r.Ok? && fresh(r.value) && fresh(r.value.cart) && r.value.cart.items == [] &&
        r.value.email == Lower(email) && r.value.name == name &&
        r.value.password == password && r.value.address == address
      ensures r.Ok? ==> r.value.Valid()
    {
      match Email.Validate(email)
      case Err(e) =>
        r := Err(e);
      case Ok(stored) =>
        ValidatedIsStored(email);
        var u := new User(name, stored, password, address);
        r := Ok(u);
    }

    /** `update_user_details(address, name)`: nothing when both are absent; otherwise the user's
        row must exist (`found`), the given fields are replaced, and a failed commit is
        re-raised after the fields have changed. */
    method UpdateUserDetails(newAddress: Option<string>, newName: Option<string>, found: bool, commit: Outcome)
      returns (r: Outcome)
      modifies this`address, this`name
      ensures newAddress.None? && newName.None? ==>
        r == Pass && address == old(address) && name == old(name)
      ensures (newAddress.Some? || newName.Some?) && !found ==>
        r == Raise(UpdateError(ValueError("User not found in database"))) &&
        address == old(address) && name == old(name)
      ensures (newAddress.Some? || newName.Some?) && found ==>
        address == (if newAddress.Some? then newAddress.value else old(address)) &&
        name == (if newName.Some? then newName.value else old(name)) &&
        r == (if commit.Raise? then Raise(UpdateError(commit.error)) else Pass)
    {
      if newAddress.None? && newName.None? {
        return Pass;
      }
      if !found {
        return Raise(UpdateError(ValueError("User not found in database")));
      }
      if newAddress.Some? {
        address := newAddress.value;
      }
      if newName.Some? {
        name := newName.value;
      }
      r := if commit.Raise? then Raise(UpdateError(commit.error)) else Pass;
    }
  }

  class Manager {
    var name: string
    var email: string
    var password: string

    predicate Valid()
      reads this
    {
      StoredEmail(email)
    }

    constructor (name: string, email: string, password: string)
      ensures this.name == name && this.email == email && this.password == password
    {
      this.name := name;
      this.email := email;
      this.password := password;
    }

    /** `Manager(name, email, password)`: the same e-mail check as every `BasicUser`. */
    static method New(name: string, email: string, password: string) returns (r: Result<Manager>)
      ensures Email.Validate(email).Err? ==> r == Err(ValueError("Invalid email format"))
      ensures Email.Validate(email).Ok? ==>
        r.Ok? && fresh(r.value) && r.value.email == Lower(email) &&
        r.value.name == name && r.value.password == password
      ensures r.Ok? ==> r.value.Valid()
    {
      match Email.Validate(email)
      case Err(e) =>
        r := Err(e);
      case Ok(stored) =>
        ValidatedIsStored(email);
        var m := new Manager(name, stored, password);
        r := Ok(m);
    }
  }
}
