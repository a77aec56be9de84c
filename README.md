# Online furniture store: a Dafny model of the domain layer

This project models the domain layer of an online furniture store. It covers:

- the stock table and its quantity adjustment;
- how a furniture object is resolved to its stock row;
- the five furniture variants, with their validation, cross-sell tables and the factory that
  builds them;
- the shopping carts and orders, both the application's and the older prototypes';
- the e-mail and credit-card validators.

The database is replaced by an in-memory sequence of stock rows shaped like the `Inventory`
table (`InventoryDB`). A query that ends in `.first()` is read as "the first row, in table
order, that passes every filter".

Anything that depends on the database or the outside world is a parameter:

- a database exception is a `fault` flag;
- a commit that fails is an `Outcome`;
- whether the user's row exists is a `found` flag;
- the result of inserting an order is a `Result<nat>`;
- the availability check seen by the cart is an `available` flag.

Python's dynamic values are modelled by the datatype `Py.Value`:

- truthiness, and `isinstance(x, int)` (which also holds for a `bool`);
- exceptions, as `Py.Exception`;
- object identity: furniture has no `__eq__`, so equality is identity, modelled by a number
  `oid`.

Modules follow the source files:

| module | source |
|---|---|
| `Inventory` | `app/models/inventory.py` and the `InventoryDB` row of `app/data/DbConnection.py` |
| `Utils` | `app/utils.py` |
| `Furnitures` | `app/models/FurnituresClass.py` |
| `Factory` | `app/models/FurnitureFactory.py` |
| `Enums` | `app/models/EnumsClass.py` |
| `AppCart` | `app/models/ShoppingCart.py` |
| `AppOrder` | `app/models/order.py` |
| `ProtoCart` | `ShoppingCart.py` |
| `ProtoOrder` | `order.py` |
| `Users` | `app/models/Users.py` |
| `UserAccount` | `app/models/User.py` |
| `Authentication` | `app/models/Authentication.py` |

Four more modules hold shared code:

- `Email`: the e-mail regex, shared by `Users` and `UserAccount`;
- `Singleton`: the `__new__` pattern shared by `Inventory`, `FurnitureFactory` and
  `Authentication`;
- `Text`: ASCII upper- and lower-casing;
- `Py`: the dynamic values and exceptions described above.

Objects whose fields the source updates in place are classes:

- a stock table;
- the carts;
- the orders and the order counter;
- the users.

Furniture objects are never changed after construction, so they are a datatype.

## Model

| member | source | states |
|---|---|---|
| Enums.TypeByName | app/models/EnumsClass.py:4-11 | a name selects the member with exactly that name, and None means no member has it |
| Enums.TypeByValue | app/models/EnumsClass.py:4-11 | a value selects the member with that value, and None means no member has it |
| Enums.TypeValuesAreOneToFive | app/models/EnumsClass.py:7-11 | the five member values are distinct and are exactly 1..5 |
| Enums.TypeNameRoundTrip | app/models/EnumsClass.py:7-11 | looking a member up by its own name or by its own value gives it back |
| Enums.StatusByValue | app/models/EnumsClass.py:14-19 | `OrderStatus(v)` finds the status with value v, or none exists |
| Enums.StatusSuccessor | app/models/EnumsClass.py:17-19 | value+1 is a status exactly when the status is not DELIVERED; DELIVERED is the largest value |
| Text.Upper | app/utils.py:17 | ASCII upper-casing: the length is kept, `a`..`z` become `A`..`Z`, and every other character is unchanged |
| Text.Lower | app/models/Users.py:41 | ASCII lower-casing: the length is kept, `A`..`Z` become `a`..`z`, and every other character is unchanged |
| Text.UpperHasNoLower | app/utils.py:17 | an upper-cased string has no lower-case letter |
| Text.LowerIdempotent | app/models/Users.py:41 | lower-casing twice is lower-casing once |
| Inventory.TypeConstraintMatchesEnum | app/data/DbConnection.py:62-66 | the check constraint allows exactly the `FurnitureType` values |
| Inventory.ColumnByName | app/models/inventory.py:66 | a name resolves to the column of that name, and to none when no column has it |
| Inventory.Attribute | app/models/inventory.py:66-68 | `getattr(InventoryDB, column, None)` is defined for a column name and reads that column |
| Inventory.FirstWhere | app/models/inventory.py:19-30 | `.first()` gives the first row that passes, or none when no row passes |
| Inventory.Select | app/models/inventory.py:86 | `.all()` keeps exactly the rows that pass |
| Inventory.RowById | app/models/inventory.py:47 | `filter_by(id=indx).first()` gives a row with that id, or none when no row has it |
| Inventory.IndexByValues | app/models/inventory.py:14-41 | the id of the first row equal on all eight attributes, or None when none is |
| Inventory.IndexByValuesAsWrittenFails | app/models/inventory.py:19 | as written, the query raises and the result is -1 even when a row matches |
| Inventory.AdjustKeepsNonNegative | app/models/inventory.py:49-52 | a non-negative quantity stays non-negative, and a decrease never raises it |
| Inventory.ReserveReleaseRoundTrip | app/models/inventory.py:49-52 | a decrease followed by an increase of the same n restores q when n <= q, and gives n when the decrease was clamped |
| Inventory.AdjustRow | app/models/inventory.py:47-52 | only the row at the found position changes, and only in its quantity |
| Inventory.UpdateQuantityAsWrittenAlwaysFails | app/models/inventory.py:50-57 | as written, the misspelt field raises, so the result is False and no row changes even when the row exists |
| Inventory.Stock.UpdateQuantity | app/models/inventory.py:43-60 | True exactly when the row exists and no error occurred; on False the rows are unchanged; on True only the first row with that id is adjusted |
| Inventory.AdjustRowKeepsStockNonNegative | app/models/inventory.py:47-52 | adjusting a table whose quantities are all non-negative keeps them all non-negative |
| Inventory.QueryByColumn | app/models/inventory.py:62-80 | an unknown column gives None; otherwise the matching rows, or None when no row matches |
| Inventory.QueryByPriceRange | app/models/inventory.py:82-99 | exactly the rows with lo <= price <= hi, or None when no row is in range |
| Inventory.InvertedRangeMatchesNothing | app/models/inventory.py:86-94 | a range with lo > hi gives None |
| Inventory.DefaultRangeKeepsNonNegativePrices | app/models/inventory.py:82-91 | with the defaults 0 and infinity, every row with a non-negative price is returned |
| Singleton.InstanceSlot.New | app/models/inventory.py:9-12 | the first call stores and returns the new object; every later call returns the stored one |
| Singleton.RepeatedConstruction | app/models/FurnitureFactory.py:8-11 | three constructions return the same object, that of the first call (the same holds for `Inventory` and `Authentication`) |
| Utils.InsertUnderscores | app/utils.py:16 | the substitution never shortens its input |
| Utils.InsertUnderscoresAtBoundaries | app/utils.py:16 | the left-to-right `re.sub` puts an underscore at exactly the lower-to-upper case boundaries of the input |
| Utils.InsertUnderscoresRoundTrip | app/utils.py:16 | removing the underscores it inserted gives the input back, for any input without an underscore |
| Utils.InsertUnderscoresOfNoLower | app/utils.py:16 | a string with no lower-case letter is left unchanged |
| Utils.PascalToSnake | app/utils.py:7-17 | the result has no lower-case letter |
| Utils.PascalToSnakeIdempotent | app/utils.py:16-17 | snake-casing twice is snake-casing once |
| Utils.SnakeOfTwoWords | app/utils.py:16-17 | two capitalised words snake-case to the two upper-cased words joined by `_` |
| Utils.ClassNameSnakeIsTypeName | app/utils.py:16-17 | DiningTable, WorkDesk, CoffeeTable, WorkChair and GamingChair snake-case to their `FurnitureType` member names |
| Utils.ItemFilterColumns | app/utils.py:44-50 | a table's filters mention material and no chair column; a chair's mention both flags and not material |
| Utils.IndexOfItemWith | app/utils.py:20-61 | None for a None item or on error; otherwise the id of the first row passing every filter, and None only when no row passes |
| Utils.MatchesIffDescribes | app/utils.py:36-52 | with the type clause on the member value, a row passes the filters exactly when it describes the object |
| Utils.IndexOfItemFindsDescribingRow | app/utils.py:52-54 | corrected lookup: an id is found exactly when some row describes the object, and it is the first such row's id |
| Utils.IndexOfItemAsWrittenNeverFinds | app/utils.py:33-37 | as written, the integer type column is compared with a string, so the result is always None |
| Utils.TypeClauseFromSnakeName | app/utils.py:33-37 | the corrected type clause is the value of the member named by the snake-cased class name |
| Furnitures.ValidateColor | app/models/FurnituresClass.py:16-28 | TypeError for a non-string; passes exactly when the lower-cased colour is among the lower-cased allowed colours; otherwise ValueError |
| Furnitures.ValidateMaterial | app/models/FurnituresClass.py:127-139 | the same rule for a table's material against its allowed materials |
| Furnitures.ValidationIgnoresCase | app/models/FurnituresClass.py:24-25 | a colour or material passes exactly when its lower-cased or upper-cased form passes |
| Furnitures.InfoByKey | app/models/FurnituresClass.py:78-102 | the keyed row's price, name and description, or (-1, "None", "None") for a missing key, a missing row or an error |
| Furnitures.CheckAvailability | app/models/FurnituresClass.py:48-70 | True exactly when the keyed row exists with quantity >= amount and no error occurred |
| Furnitures.AvailabilityMonotone | app/models/FurnituresClass.py:48-70 | stock enough for an amount is enough for every smaller amount |
| Furnitures.GetPrice | app/models/FurnituresClass.py:72-76 | the price, or ValueError("Price is not set yet.") exactly when it is None |
| Furnitures.Construct | app/models/FurnituresClass.py:8-14 | colour checked first, then material for a table or the bool check for a chair, each error as raised; a built object carries the arguments and the row information |
| Furnitures.ConstructAsWritten | app/models/FurnituresClass.py:8-11 | as written, every construction fails: a colour error is raised as checked, and an accepted colour is followed by the AttributeError of the missing lookup |
| Furnitures.ConstructAsWrittenNeverBuilds | app/models/FurnituresClass.py:8-11 | every object the corrected constructor builds raises the missing lookup's AttributeError as written, and both raise the same colour errors |
| Furnitures.ConstructedHasPrice | app/models/FurnituresClass.py:11-12 | `get_price` on a constructed object gives the price read at construction |
| Furnitures.DiningTableKeyListed | app/models/FurnituresClass.py:285-307 | every allowed colour & material key is in DiningTable's match table |
| Furnitures.WorkDeskKeyListed | app/models/FurnituresClass.py:312-334 | every allowed colour & material key is in WorkDesk's match table |
| Furnitures.CoffeeTableKeyListed | app/models/FurnituresClass.py:339-361 | every allowed colour & material key is in CoffeeTable's match table |
| Furnitures.GamingChairKeyListed | app/models/FurnituresClass.py:366-391 | every allowed colour with any two flags is a key of GamingChair's match table |
| Furnitures.WorkChairKeyListed | app/models/FurnituresClass.py:396-421 | every allowed colour with any two flags is a key of WorkChair's match table |
| Furnitures.MatchKeyListed | app/models/FurnituresClass.py:306-307 | the key an object with allowed attributes builds is in its class's match table |
| Furnitures.MatchKeyCovered | app/models/FurnituresClass.py:285-421 | every object a constructor accepts builds a key its class's match table lists |
| Furnitures.ScanForMatch | app/models/FurnituresClass.py:170-189 | the hit is the row of the first option that lies in range and has at least one unit; none means no option qualifies |
| Furnitures.TableMatch | app/models/FurnituresClass.py:153-202 | a chair offer from the first qualifying id in 13..28; the unique-item text exactly when none qualifies or an error occurs |
| Furnitures.ChairMatch | app/models/FurnituresClass.py:231-277 | a table offer from the first qualifying id in 1..12; the unique-item text exactly when none qualifies or an error occurs |
| Furnitures.Advertise | app/models/FurnituresClass.py:300-309 | a table is offered only chairs and a chair only tables, each from the first qualifying id its class's table lists for the object; the unique-item text exactly when no listed id qualifies or on error |
| Factory.Bind | app/models/FurnitureFactory.py:24-32 | keyword arguments bind exactly when their names are the parameters, with each argument passed on; otherwise TypeError |
| Factory.DispatchCoversEveryMember | app/models/FurnitureFactory.py:23-34 | values 1..5 dispatch to DiningTable, WorkDesk, CoffeeTable, WorkChair and GamingChair, so the final branch is unreachable |
| Factory.CreateIgnoresCase | app/models/FurnitureFactory.py:18-19 | every casing of a type name selects the same member and builds the same object |
| Factory.UnknownTypeRaisesValueError | app/models/FurnitureFactory.py:18-21 | a name that is no member name raises ValueError naming it |
| Factory.CreatedHasSelectedClass | app/models/FurnitureFactory.py:13-32 | a created object is of the class the upper-cased name selects, with the stock price |
| Factory.AttributesPassThrough | tests/test_FurnitureFactory.py:44-49 | the created object's colour, material and flags equal the keyword arguments |
| Factory.MissingAttributeRaisesTypeError | tests/test_FurnitureFactory.py:58-68 | a missing required keyword raises TypeError |
| Factory.WrongTypedAttributeRaisesTypeError | tests/test_FurnitureFactory.py:71-83 | a non-string colour, or a non-string table material, raises TypeError |
| AppCart.LastIndexOf | app/models/ShoppingCart.py:32-37 | the scan ends at the last entry holding the furniture, and finds none exactly when none holds it |
| AppCart.Cart.constructor | app/models/ShoppingCart.py:5-8 | a new cart has no entries |
| AppCart.Cart.AddItem | app/models/ShoppingCart.py:27-48 | True exactly when amount >= 1 and stock is available; on False the entries are unchanged |
| AppCart.Cart.RemoveItem | app/models/ShoppingCart.py:51-58 | the iterate-while-removing scan, and ValueError("Item not in cart - nothing to remove") with the entries unchanged when nothing was removed |
| AppCart.TotalPriceAsWritten | app/models/ShoppingCart.py:10-11 | as written, the total is 0 for an empty cart and every other cart raises AttributeError |
| AppCart.TotalPrice | app/models/ShoppingCart.py:10-11 | corrected total: defined exactly when every entry's furniture has a price; otherwise the TypeError of an unset price |
| AppCart.TotalPriceAppend | app/models/ShoppingCart.py:10-11 | appending a priced entry adds its price times its amount to the total |
| AppCart.TotalPriceNonNegative | app/models/ShoppingCart.py:10-11 | with non-negative prices and positive amounts the total is defined and not negative |
| AppCart.TotalPriceAsWrittenAgreesOnlyWhenEmpty | app/models/ShoppingCart.py:10-11 | the total as written equals the corrected one exactly for the empty cart |
| AppCart.AddKeepsNoDuplicates | app/models/ShoppingCart.py:34-45 | adding never creates a second entry for the same furniture |
| AppCart.AddReplacesAmount | app/models/ShoppingCart.py:38-41 | for furniture already present the amount is replaced, not summed, the length is kept and the other entries are unchanged |
| AppCart.AddAppendsNew | app/models/ShoppingCart.py:42-45 | furniture not yet present is appended as a new entry at the end |
| AppCart.RemoveScanMissing | app/models/ShoppingCart.py:52-58 | with no entry for the furniture, the scan removes nothing and reports not found |
| AppCart.RemoveScanNoDuplicates | app/models/ShoppingCart.py:52-56 | on a cart without duplicates the scan removes exactly the furniture's entry |
| AppCart.RemoveItemDropsEntry | app/models/ShoppingCart.py:51-58 | removal succeeds exactly when the furniture is present, deletes its one entry and keeps the rest in order |
| AppCart.AddThenRemoveRestores | app/models/ShoppingCart.py:27-58 | adding new furniture and then removing it gives the original entries back |
| ProtoCart.FirstIndexOf | ShoppingCart.py:31-33 | the position of the first occurrence of the item |
| ProtoCart.Cart.constructor | ShoppingCart.py:5-8 | a new cart is empty and belongs to the given user |
| ProtoCart.Cart.AddItem | ShoppingCart.py:27-28 | the item is appended at the end, duplicates allowed |
| ProtoCart.Cart.RemoveItem | ShoppingCart.py:30-35 | a present item is removed once; an absent one raises ValueError("Item not in cart") with the list unchanged |
| ProtoCart.Describe | ShoppingCart.py:37-40 | "Shopping cart is empty." exactly for an empty cart; the application's cart has the same rule (app/models/ShoppingCart.py:60-63) |
| ProtoCart.RemoveFirstCutsFirstOccurrence | ShoppingCart.py:31-33 | removal cuts out exactly the first occurrence, keeping the other items in order |
| ProtoCart.RemoveFirstMissing | ShoppingCart.py:30-35 | removing an absent item changes nothing |
| ProtoCart.AddThenRemoveRestores | ShoppingCart.py:27-33 | adding an item not yet present and then removing it restores the list |
| ProtoOrder.ItemType | order.py:29 | KeyError naming the derived member name exactly when no member has that name; otherwise that member's value, which lies in 1..5 |
| ProtoOrder.OrderItems | order.py:27-33 | one line per cart item, in order, each with that item's type, name, price and quantity 1; otherwise the KeyError of an item whose lookup fails |
| ProtoOrder.OrderCounter.constructor | order.py:14 | the counter starts at 1 |
| ProtoOrder.Order.constructor | order.py:21-26 | a new order starts PENDING with the given id, user and items |
| ProtoOrder.Order.Create | order.py:16-33 | a null cart raises ValueError before the counter moves; otherwise the order takes the counter as its id, the counter advances by one, and it fails exactly when an item's type lookup does |
| ProtoOrder.Order.UpdateStatus | order.py:35-40 | from DELIVERED the result is False and the status is kept; otherwise any given status is set and the result is True |
| ProtoOrder.ConsecutiveIds | order.py:14-22 | two orders from a fresh counter get ids 1 and 2 |
| ProtoOrder.ItemTypeAsWrittenRaises | order.py:29 | as written, a class name without `_` upper-cases to no member name, and raises KeyError |
| ProtoOrder.OrderItemsAsWrittenFails | order.py:27-33 | as written, a cart holding any furniture class makes building the order fail |
| ProtoOrder.ItemTypeOfClassName | order.py:29 | with snake-casing, each class name gives its member's value |
| AppOrder.SaveAsWritten | app/models/order.py:49-78 | as written, saving always fails: a database error is re-raised wrapped, and a successful insert still fails on `self.items.items()` |
| AppOrder.Save | app/models/order.py:49-78 | corrected save: succeeds exactly when the insert does and takes its id; otherwise "Error saving order to database: ..." |
| AppOrder.Order.constructor | app/models/order.py:40-45 | a new order starts PENDING with id None |
| AppOrder.Order.Create | app/models/order.py:23-47 | as written, construction always fails: a null cart raises ValueError, a non-empty cart the total's AttributeError, and an empty cart the save's wrapped error |
| AppOrder.Order.CreateCorrected | app/models/order.py:23-47 | corrected: a null cart raises ValueError and an unpriced entry the total's TypeError; otherwise the order holds the total and copies of the cart's entries, and is built exactly when the insert succeeds, with its id |
| AppOrder.Order.UpdateStatus | app/models/order.py:80-109 | from an invalid or DELIVERED status, ValueError("Order is already in final status (DELIVERED)") with the status kept; otherwise one step forward, but only if the commit succeeds |
| AppOrder.Order.GetStatus | app/models/order.py:111-113 | the enum name of the status, or ValueError when the status is not a member value |
| AppOrder.UpdateKeepsValid | app/models/order.py:80-109 | the status stays within 1..3, and the update raises exactly from DELIVERED |
| AppOrder.Lifecycle | tests/test_Order.py:108-113 | a new order reads SHIPPED and DELIVERED after two updates, and a third update raises |
| Email.ShapeDecidesPattern | app/models/Users.py:38-39 | the decision by first `@` and last `.` agrees with the pattern read as "there is a split" |
| Email.Validate | app/models/Users.py:25-41 | accepted exactly when the pattern matches, with at most one trailing newline; the result is lower-cased; otherwise ValueError("Invalid email format") |
| Email.LowerKeepsAccepts | app/models/Users.py:38-41 | a lower-cased accepted address is still accepted |
| Email.ValidateIdempotent | app/models/Users.py:38-41 | validating an accepted result again gives it back unchanged |
| Email.ShapeCharacters | app/models/Users.py:38 | a matching address has one `@`, only allowed characters, and no `_` after the `@` |
| Email.AcceptedPart | app/models/Users.py:38-39 | an accepted address is a matching part followed only by newlines |
| Email.NoAtRejected | app/models/Users.py:38-40 | an address without `@` is rejected |
| Email.TwoAtsRejected | app/models/Users.py:38-40 | an address with two `@` is rejected |
| Email.ForeignCharRejected | app/models/Users.py:38-40 | a character outside `[A-Za-z0-9._%+-]`, other than `@` or the final newline, is rejected |
| Email.UnderscoreInDomainRejected | app/models/Users.py:38-40 | an `_` after the `@` is rejected |
| Email.ShortDomainAccepted | tests/test_user_management.py:420 | "example@s.example" is accepted |
| Email.LowerCaseAccepted | tests/test_user_management.py:418-424 | an accepted lower-case address is returned as it is |
| Email.TrailingNewlineAccepted | app/models/Users.py:38-39 | the pattern's `$` accepts one trailing newline |
| Email.MissingAtRejected | tests/test_user_management.py:431 | "Abc.example.com" is rejected |
| Email.SeveralAtsRejected | tests/test_user_management.py:432 | "A@b@c@example.com" is rejected |
| Email.QuoteRejected | tests/test_user_management.py:433 | the quoted address is rejected |
| Email.SpaceRejected | tests/test_user_management.py:434 | the address with a space is rejected |
| Email.UnderscoreDomainRejected | tests/test_user_management.py:435 | the address with `_` in the domain is rejected |
| Users.ValidatedIsStored | app/models/Users.py:22 | a validated address is a valid stored address |
| Users.User.New | app/models/Users.py:65-74 | an invalid e-mail raises ValueError("Invalid email format"); otherwise the user holds the lower-cased e-mail and an empty cart |
| Users.User.UpdateUserDetails | app/models/Users.py:76-99 | nothing happens with neither field given; a missing row raises the wrapped "User not found in database"; otherwise the given fields are replaced and a failed commit is re-raised wrapped |
| Users.Manager.New | app/models/Users.py:144-149 | an invalid e-mail raises ValueError("Invalid email format"); otherwise the manager holds the lower-cased e-mail |
| UserAccount.User.New | app/models/User.py:23-34 | an invalid e-mail raises ValueError("Invalid email format"); otherwise the user holds the lower-cased e-mail and an empty cart |
| UserAccount.User.UpdateUserDetails | app/models/User.py:54-76 | nothing happens with neither field given; the address is replaced first; an invalid new e-mail is re-raised wrapped with the old e-mail kept; a valid one is stored lower-cased; the stored e-mail stays valid |
| Authentication.CardRule | app/models/Authentication.py:146-151 | accepted exactly when the total is falsy or the number is an `int` (a `bool` counts) |
| Authentication.AnyIntegerPasses | app/models/Authentication.py:149-150 | digits and length are never examined: every integer passes |
| Authentication.NothingToPayAcceptsAnyCard | app/models/Authentication.py:147-148 | a zero, empty or None total accepts any card |
| Authentication.SuiteCases | tests/test_user_management.py:387-394 | (0, 1234567890) and (100, 1234567890) are accepted; (100, "not_a_number") is rejected |

## Left out

- Sessions, commits, rollbacks and the connection are not modelled. Their outcomes are parameters: `fault`, `found`, `commit` and `insert`.
- `update_quntity` never commits, so its persistence effect is not modelled. Its arithmetic and its found/not-found result are.
- `Inventory.QueryByColumn` and `Inventory.QueryByPriceRange` return the matching rows. The source returns `jsonify([])` for them, because its loop body is `pass`. The Flask response object is not modelled.
- `Inventory.QueryByPriceRange`: prices are integers, and the default upper bound `inf` is the `Unbounded` bound. Float prices are not modelled.
- `Furnitures.Construct`, `Furnitures.CheckAvailability` and `Furnitures.InfoByKey` are the corrected forms. As written, `check_availability` and `_get_info_furniture_by_key` call `Inventory.get_index_furniture_by_values`, which `Inventory` does not define, outside their `try` blocks (app/models/FurnituresClass.py:51 and :81). So every constructor raises AttributeError right after the colour check, every `check_availability` raises, and no furniture object can exist; `Furnitures.ConstructAsWritten` models this (see Findings). The corrected forms take the id of the object's row as a parameter `key`, and the row information as a parameter `info`.
- `Furnitures.Construct`: in the source the row lookup runs inside `Furniture.__init__`, before `Table.__init__` validates and sets `material` and before `Chair.__init__` checks and sets its two flags (app/models/FurnituresClass.py:122-124 and 212-217). A lookup there would see neither, and app/utils.py:45-50 would leave them out of the filters. The parameter `info` hides which row that early lookup would find.
- `Text.Upper`: ASCII only. Python's `str.upper` also maps other letters, can lengthen a string (`"ß".upper()` is `"SS"`) and maps the dotless `ı` to `I`. So `"dınıng_table"` selects DiningTable in `create_furniture` (app/models/FurnitureFactory.py:19), where the model raises ValueError; the length claim does not hold for such input either.
- `Text.Lower`: ASCII only. Python's `str.lower` also maps other letters, for instance the Kelvin sign (U+212A) to `k`. So `"Blac\u212A"` passes `_validate_color` for a WorkDesk (app/models/FurnituresClass.py:24-25), and such letters pass `_validate_material` likewise (135-136), where the model rejects them. E-mail validation is unaffected, since its pattern only accepts ASCII.
- bcrypt password hashing, and the user creation, sign-in and password updates built on it (app/models/Authentication.py:16-144), are not modelled. They depend on a foreign library.
- The Flask routes and app factories are not modelled. Neither is the demo script main.py.
- `calculate_discount`, `apply_tax`, `apply_discount` and `update_credit` are not modelled, because they compute in floating point.
- `AppCart.TotalPrice` and an order's `totalPrice` are integers; the source's float prices are not modelled.
- The advertisement wording, `__repr__` text beyond the empty cart, and `print` logging are not modelled. (For a non-empty application cart, the listing reads `item.name` of a list entry, so it would raise AttributeError.) `Furnitures.TableMatch`, `Furnitures.ChairMatch` and `Furnitures.Advertise` return the offer's fields, not the printed text.
- The per-class `Print_matching_product_advertisement` methods print their advertisement. `Furnitures.Advertise` returns it instead.
- `ProtoOrder.Order.Create` uses the snake-cased type lookup, so that orders can be built. The lookup as written is `ProtoOrder.ItemTypeAsWrittenRaises`.
- `AppOrder.Order.CreateCorrected` corrects three lines so that orders can be built. The total sums each entry's price times its amount, where app/models/ShoppingCart.py:11 reads `price` of a `[furniture, amount]` list. The save iterates over the entries, where app/models/order.py:63 calls `.items()` on a list. The contained-item rows are not written: their id lookup at app/models/order.py:66 passes one argument to `get_index_furniture_by_values(self, item)` (app/utils.py:20), so as written it would raise TypeError for every entry. Neither those rows nor that lookup are modelled.
- `AppOrder.Order.CreateCorrected` copies the cart's entries as values. `deepcopy` gives the copied furniture new identities, and that renumbering is not modelled.
- `AppOrder.Order.GetStatus`: the text of the ValueError that `OrderStatus(x)` raises is not modelled, only its kind.
- `Factory.Bind`: Python's exact TypeError wording is not modelled, only its kind.
- The user back-reference of the application's cart is not modelled. The prototype cart keeps its user as an id.
- A user's orders list, and the `view_cart`, `get_order_hist`, `checkout`, `delete_user` and `Manager` inventory methods, are not modelled. They are stubs or database-only.
- Singletons are one explicit `Singleton.InstanceSlot` per class. There is no concurrency to model.
- The root-level furniture prototype, FurnituresClass.py, is not part of this model. It only stores constructor fields.
- Both prototypes, ShoppingCart.py and order.py, use their own copy of the enums, EnumsClass.py at the root. That copy has the same members and values as app/models/EnumsClass.py, so both use the one `Enums` module.

## Findings

| source | as written | input that shows it | evidently intended | confidence | as-written member | corrected member |
|---|---|---|---|---|---|---|
| app/models/inventory.py:19 | the query goes through `self.session`, which no method sets, so it raises and the result is -1 | any table containing a row equal to the eight given values | query through the `session` opened on line 17 and return that row's id | not executed | Inventory.IndexByValuesAsWrittenFails | Inventory.IndexByValues |
| app/models/inventory.py:50-52 | the quantity is read and written as `row.quntity`, which `InventoryDB` does not have, so an AttributeError is caught and the result is False | a table holding a row with id `indx`, and either action | adjust `row.quantity` and return True | not executed | Inventory.UpdateQuantityAsWrittenAlwaysFails | Inventory.Stock.UpdateQuantity |
| order.py:29 | `FurnitureType[cls.__name__.upper()]` looks up "DININGTABLE", which is not a member, and raises KeyError | a cart holding one DiningTable | look up the snake-cased name "DINING_TABLE" | not executed | ProtoOrder.OrderItemsAsWrittenFails | ProtoOrder.ItemTypeOfClassName |
| app/utils.py:33-37 | the integer `furniture_type` column is compared with the string "DINING_TABLE", so no row matches | a DiningTable and a row describing it (type 1, its colour, dimensions and material) | compare the column with the member's value, 1 | not executed; a database that casts strings to numbers would still match no row | Utils.IndexOfItemAsWrittenNeverFinds | Utils.IndexOfItemFindsDescribingRow |
| app/models/order.py:63 | `self.items.items()` is called on the list copied from the cart, so saving raises and every construction fails with "Error saving order to database: ..." | an empty cart (a non-empty one raises earlier, at line 41), with an insert that succeeds | iterate over the `[furniture, amount]` entries | not executed | AppOrder.SaveAsWritten | AppOrder.Save |
| app/models/ShoppingCart.py:11 | `sum(item.price for item in self.items)` reads `price` of each `[furniture, amount]` entry, a list, so every non-empty cart raises AttributeError, and so does `Order(...)` at app/models/order.py:41 | a cart holding one DiningTable with amount 1 | sum each entry's furniture price times its amount | not executed | AppCart.TotalPriceAsWritten | AppCart.TotalPrice |
| app/models/FurnituresClass.py:81 | `Inventory().get_index_furniture_by_values(self)` names a method `Inventory` does not have, outside any `try`, so every constructor raises AttributeError after the colour check (line 51 does the same in `check_availability`) | `DiningTable("Brown", "Wood")` | resolve the object's row id with the lookup of app/utils.py:20-61 | not executed | Furnitures.ConstructAsWritten | Furnitures.Construct |
