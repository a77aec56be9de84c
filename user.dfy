/** The stand-alone user class of app/models/User.py: the same e-mail check as
    app/models/Users.py, and an `update_user_details` that can replace the address and the
    e-mail. The database row lookup and commit are parameters. */
module UserAccount {
  import opened Py
  import opened Text
  import Email
  import AppCart
  import Users

  class User {
    var name: string
    var email: string
    var password: string
    var address: string
    var cart: AppCart.Cart

    /** The stored address always passed the check and is lower-case. */
    predicate Valid()
      reads this
    {
      Users.StoredEmail(email)
    }

    constructor (name: string, email: string, password: string, address: string)
      ensures this.name == name && this.email == email && this.password == password
      ensures this.address == address && fresh(cart) && cart.items == []
    {
      this.name := name;
      this.email := email;
      this.password := password;
      this.address := address;
      cart := new AppCart.Cart();
    }

    /** `User(name, email, password, address)`: raises the e-mail check's `ValueError`, or stores
        the lower-cased e-mail with the other fields and a new empty cart. */
    static method New(name: string, email: string, password: string, address: string) returns (r: Result<User>)
      ensures Email.Validate(email).Err? ==> r == Err(ValueError("Invalid email format"))
      ensures Email.Validate(email).Ok? ==>
        r.Ok? && fresh(r.value) && fresh(r.value.cart) && r.value.cart.items == [] &&
        r.value.email == Lower(email) && r.value.name == name &&
        r.value.password == password && r.value.address == address
      ensures r.Ok? ==> r.value.Valid()
    {
      match Email.Validate(email)
      case Err(e) =>
        r := Err(e);
      case Ok(stored) =>
        Users.ValidatedIsStored(email);
        var u := new User(name, stored, password, address);
        r := Ok(u);
    }

    /** `update_user_details(address, email)`: nothing when both are absent; otherwise the row
        must exist (`found`). The address is replaced first; a new e-mail is then checked, and
        an invalid one is re-raised with the address already replaced and the e-mail kept; a
        valid one is stored lower-cased; a failed commit is re-raised last. The stored e-mail
        stays valid throughout. */
    method UpdateUserDetails(newAddress: Option<string>, newEmail: Option<string>, found: bool, commit: Outcome)
      returns (r: Outcome)
      modifies this`address, this`email
      ensures old(Valid()) ==> Valid()
      ensures newAddress.None? && newEmail.None? ==>
        r == Pass && address == old(address) && email == old(email)
      ensures (newAddress.Some? || newEmail.Some?) && !found ==>
        r == Raise(Users.UpdateError(ValueError("User not found in database"))) &&
        address == old(address) && email == old(email)
      ensures (newAddress.Some? || newEmail.Some?) && found ==>
        address == (if newAddress.Some? then newAddress.value else old(address))
      ensures (newAddress.Some? || newEmail.Some?) && found && newEmail.Some? &&
              Email.Validate(newEmail.value).Err? ==>
        r == Raise(Users.UpdateError(ValueError("Invalid email format"))) && email == old(email)
      ensures (newAddress.Some? || newEmail.Some?) && found &&
              (newEmail.None? || Email.Validate(newEmail.value).Ok?) ==>
        email == (if newEmail.Some? then Lower(newEmail.value) else old(email)) &&
        r == (if commit.Raise? then Raise(Users.UpdateError(commit.error)) else Pass)
    {
      if newAddress.None? && newEmail.None? {
        return Pass;
      }
      if !found {
        return Raise(Users.UpdateError(ValueError("User not found in database")));
      }
      if newAddress.Some? {
        address := newAddress.value;
      }
      if newEmail.Some? {
        match Email.Validate(newEmail.value)
        case Err(e) =>
          return Raise(Users.UpdateError(e));
        case Ok(stored) =>
          Users.ValidatedIsStored(newEmail.value);
          email := stored;
      }
      r := if commit.Raise? then Raise(Users.UpdateError(commit.error)) else Pass;
    }
  }
}
