/** The `__new__` singleton pattern shared by `Inventory` (app/models/inventory.py),
    `FurnitureFactory` (app/models/FurnitureFactory.py) and `Authentication`
    (app/models/Authentication.py): the class attribute `_instance` holds the one object, created
    on the first call. Objects are identified by a number; `candidate` is the object a call would
    allocate if none exists yet. */
module Singleton {
  import opened Py

  class InstanceSlot {
    /** `cls._instance` */
    var instance: Option<nat>

    constructor ()
      ensures instance == None
    {
      instance := None;
    }

    /** `cls()`: the stored instance, or `candidate` stored as the instance on the first call. */
    method New(candidate: nat) returns (obj: nat)
      modifies this
      ensures old(instance).Some? ==> obj == old(instance).value && instance == old(instance)
      ensures old(instance).None? ==> obj == candidate && instance == Some(candidate)
      ensures instance == Some(obj)
    {
      if instance.None? {
        instance := Some(candidate);
      }
      obj := instance.value;
    }
  }

  /** However many times the class is called, every call returns the object of the first. */
  method RepeatedConstruction(first: nat, second: nat, third: nat) returns (a: nat, b: nat, c: nat)
    ensures a == first && b == first && c == first
  {
    var slot := new InstanceSlot();
    a := slot.New(first);
    b := slot.New(second);
    c := slot.New(third);
  }
}
