# E-Shoppi-API controllers in Dafny

This project models the request handlers of the E-Shoppi-API shop backend. The model covers:

- order placement and stock debit;
- the per-user cart;
- rating submission with the product's average rating;
- role-based sidebar menus;
- the `authorize(roles)` and bearer-token middleware;
- user accounts with their logins;
- notifications;
- categories with embedded subcategories.

The MongoDB store is a `Database` class (`store.dfy`). It has one `map<Id, …>` field per collection, built from the shapes in `models/*.js`. A handler that writes to the store is a method that names exactly the collections it writes in its `modifies` frame, so everything else is unchanged by construction. Each method's `ensures` gives the new contents of those collections as a function of the old ones. The properties the handlers promise are proved as lemmas about those functions:

- all-or-nothing stock debit;
- distinct product lines in a cart, with product ids compared in their canonical form;
- every user pointing at a login that points back at that user;
- the mean of the ratings.

Conventions:

- **Store order.** By convention, `Model.find()` returns documents in ascending id order here (`Collections.StoreOrder`). New ids are only required to be unused, so this is not insertion order. `sort({ createdAt: -1 })` is a stable insertion sort over that order (`Collections.NewestFirst`).
- **Fresh values are parameters.** The ids MongoDB assigns (`orderId`, `ratingId`, `loginId`, `userId`, `id`) are method parameters, each required to be unused in its collection. The `createdAt` timestamp of a new rating is the parameter `now`, with no constraint.
- **Foreign code is a parameter.** bcrypt hashing and comparison become the function parameters `hash` and `matches`. `jwt.verify` becomes `verify`, which yields `None` when verification throws.
- **HTTP answers are results.** A handler's response is a `Result`: `Ok` carries the handler's result, and `Err` carries an `Error` that `Common.StatusCode` maps to the HTTP status. Usually the result is the body sent. The exceptions:
  - `Orders.PlaceOrder` and `Ratings.AddRating` answer the new document's id, where the source sends the saved order or rating.
  - `Sidebar.DeleteSidebarMenu`, `Notifications.DeleteNotification` and `Users.DeleteUser` answer the removed document, where the source sends a confirmation message.
  - `Users.SignIn` answers the unsigned token payload and the role, where the source sends a signed token.
  - `Categories.DeleteCategory` answers the removed category, which the source sends beside a confirmation message.
  - `Carts.ClearCart` answers nothing, where the source sends a confirmation message.
- **Middleware answers are steps.** A middleware answers `Step.Next` (it calls `next()`) or `Step.Respond(error)`.
- **Absent fields.** A schema-required string field (email, name, category and subcategory names) missing from the request body is modelled as the empty string, which Mongoose's `required` validator rejects just as it rejects a missing value. Other inputs are taken as present.

Modules by file:

| module | file | source |
|---|---|---|
| Common | common.dfy | errors and status codes |
| Store | store.dfy | models/*.js |
| Collections | collections.dfy | store order, filter, newest-first sort |
| Orders | orders.dfy | controllers/order.controller.js |
| Carts | carts.dfy | controllers/cart.controller.js |
| Ratings | ratings.dfy | controllers/rating.controller.js |
| Sidebar | sidebar.dfy | controllers/sidebar.controller.js |
| Authorize | authorize.dfy | middleware/authorize.js |
| Auth | auth.dfy | middleware/auth.middleware.js |
| Users | users.dfy | controllers/user.controller.js |
| Notifications | notifications.dfy | controllers/notification.controller.js |
| Categories | categories.dfy | controllers/category.controller.js |

## Model

| member | source | states |
|---|---|---|
| Collections.StoreOrder | controllers/user.controller.js:118 | the ids of a collection in the order `find()` returns them: every id once, in ascending order (the model's convention) |
| Collections.Filter | controllers/user.controller.js:121 | keeps exactly the elements passing the test, at most as many as the input, in input order (`FilterConcat`) |
| Collections.SortDesc | controllers/rating.controller.js:46 | a permutation of its input sorted by key, descending |
| Orders.CheckItem | controllers/order.controller.js:16-18 | definition: the check of one line item, NotFound for a missing product and InsufficientStock with its name for short stock; its meaning is stated by `NoFailureIffAllPass` |
| Orders.FirstFailure | controllers/order.controller.js:15-19 | definition: the error of the first failing line item; stated by `NoFailureIffAllPass` and `FailureIsFirst` |
| Orders.DebitOne | controllers/order.controller.js:23-25 | definition: one `$inc` of a product's quantity by minus the item's quantity, ignored for a missing product |
| Orders.Debit | controllers/order.controller.js:22-26 | definition: the debit loop over every line item, in order; stated by `DebitTotals` |
| Orders.SumFor | controllers/order.controller.js:22-26 | definition: the total requested of one product over all line items; stated by `SumForUnnamed` and `SumForDistinct` |
| Orders.StatusName | controllers/order.controller.js:137 | definition: the stored name of each status; stated by `ParseStatusInverse` |
| Orders.ParseStatus | controllers/order.controller.js:137-140 | definition: the accepted status names; stated by `ParseStatusInverse` |
| Carts.AddLine | controllers/cart.controller.js:26-31 | definition: merge into the first line for the product or push a new line; stated by `AddMergesExisting`, `AddAppendsNew` and `AddPreservesDistinct` |
| Ratings.Sum | controllers/rating.controller.js:28 | definition: the `reduce` sum of the rating values; stated by `SumBounds` |
| Ratings.Mean | controllers/rating.controller.js:27-28 | definition: the sum divided by the count; stated by `MeanBounds` and `RatedAverage` |
| Ratings.HasPurchased | controllers/rating.controller.js:11 | definition: some completed order of the user lists the product |
| Ratings.Rated | controllers/rating.controller.js:21-31 | definition: the product after the push and the average update; stated by `RatedAverage` |
| Sidebar.SharesRole | controllers/sidebar.controller.js:29-31 | definition: the `$in` test, some menu role is in the user's role list |
| Sidebar.Includes | controllers/sidebar.controller.js:35 | definition: the `includes` test of a submenu's roles against the user type |
| Sidebar.MenuIds | controllers/sidebar.controller.js:29-31 | definition: the ids the menu query finds, in store order; stated by `MenuIdsExact` |
| Sidebar.Shown | controllers/sidebar.controller.js:29-36 | definition: the found menus with their submenus filtered; the value `GetSidebarMenus` answers |
| Authorize.Normalise | middleware/authorize.js:1-3 | definition: the default empty list, a single role wrapped in a list, a list kept; stated by `NormaliseIdempotent` and `DecideAdmits` |
| Users.Linked | controllers/user.controller.js:20-25 | definition: every user points at a login that points back at it (logins without a user are allowed); kept by `CreateUser` and `DeleteUser` |
| Users.ValidRole | models/login.model.js:6 | definition: the login schema's role enum |
| Users.IsCustomer | controllers/user.controller.js:121 | definition: the user's populated login exists and has role `customer` |
| Users.ViewCustomers | controllers/user.controller.js:118-128 | definition: the filter and projection over the users in store order; stated by `ViewCustomersExact` |
| Categories.ValidCategory | models/category.model.js:5-11 | definition: the category name and every subcategory name are non-empty, as the schema's `required` validators demand |
| Common.StatusCode | controllers/order.controller.js:12-18 | every error maps to a 4xx or 5xx status, and only schema and runtime failures map to 500 |
| Collections.NewestFirst | controllers/rating.controller.js:44-46 | the query result holds exactly the matching documents, each once, ordered by `createdAt` descending |
| Orders.NoFailureIffAllPass | controllers/order.controller.js:15-19 | the validation loop passes if and only if every line item names an existing product whose stock is at least the requested quantity |
| Orders.FailureIsFirst | controllers/order.controller.js:15-19 | the loop reports the first failing line item: NotFound for a missing product, InsufficientStock with the product's name for short stock |
| Orders.ExactStockPasses | controllers/order.controller.js:18 | requesting exactly the stock on hand passes the check |
| Orders.CheckStock | controllers/order.controller.js:15-19 | the loop returns the first failure, or none when every item passes |
| Orders.DebitTotals | controllers/order.controller.js:22-26 | after the debit loop, each product's stock has dropped by the sum of the quantities of the line items naming it; no product is created or removed; unnamed products are unchanged |
| Orders.SumForDistinct | controllers/order.controller.js:22-26 | with distinct products, the total debited from an item's product is that item's quantity |
| Orders.DistinctItemsKeepStockNonNegative | controllers/order.controller.js:15-26 | with distinct product ids in the order, a passed check leaves all stock non-negative |
| Orders.DuplicateItemsCanOversell | controllers/order.controller.js:15-26 | the same product listed twice, each line within stock but together beyond it, passes the check and drives stock below zero |
| Orders.PlaceOrder | controllers/order.controller.js:8-33 | NotFound for an unknown buyer; otherwise the first stock failure; both leave products and orders unchanged; on success, stock is debited as above and one pending order with the given items is added |
| Orders.ParseStatusInverse | controllers/order.controller.js:137-138 | exactly the three names `pending`, `completed` and `cancelled` are accepted, each naming its own status |
| Orders.UpdateOrderStatus | controllers/order.controller.js:133-143 | an invalid status is rejected before the lookup; a missing order gives NotFound; both change nothing; otherwise only that order's status changes |
| Carts.IndexOf | controllers/cart.controller.js:26 | the index of the first line for the product, or -1 when no line names it |
| Carts.AddMergesExisting | controllers/cart.controller.js:26-28 | adding a product already in the cart adds to the first line's quantity and keeps the length and every other line |
| Carts.AddAppendsNew | controllers/cart.controller.js:29-31 | adding a product not in the cart appends one line at the end and keeps every earlier line |
| Carts.AddPreservesDistinct | controllers/cart.controller.js:26-31 | adding keeps the product ids of a cart distinct |
| Carts.AddTwiceSums | controllers/cart.controller.js:26-31 | adding a new product twice gives one line with the sum of both quantities |
| Carts.Without | controllers/cart.controller.js:66-68 | the pulled list holds exactly the lines for other products |
| Carts.RemoveKeepsOrder | controllers/cart.controller.js:66-68 | pulling distributes over concatenation, so remaining lines keep their relative order |
| Carts.RemoveUnnamedAndTwice | controllers/cart.controller.js:66-68 | pulling an absent product changes nothing, and pulling twice equals pulling once |
| Carts.RemovePreservesDistinct | controllers/cart.controller.js:66-68 | pulling keeps the product ids of a cart distinct |
| Carts.Cleared | controllers/cart.controller.js:80 | clearing empties that user's cart, if any, and leaves every other cart unchanged |
| Carts.ClearTwice | controllers/cart.controller.js:80 | clearing twice equals clearing once |
| Carts.GetCart | controllers/cart.controller.js:7-9 | NotFound exactly when the user has no cart, otherwise that cart; its partners are the two lemmas below and the `GetCart` clauses of the cart writers |
| Carts.GetCartAfterWrite | controllers/cart.controller.js:7-9 | after one user's cart is written, getCart answers the written lines for that user and is unchanged for every other user |
| Carts.GetCartAfterClear | controllers/cart.controller.js:7-9 | after clearCart, getCart answers an empty cart to a user who had a cart, still NotFound to one who had none, and is unchanged for every other user |
| Carts.AddToCart | controllers/cart.controller.js:21-34 | a user without a cart gets a one-line cart; otherwise the line is merged or appended; only that user's cart changes; getCart then answers the new cart; distinctness is kept |
| Carts.UpdateQuantity | controllers/cart.controller.js:47-54 | NotFound without a cart or without a line for the product, changing nothing; a cart with a line for the product always succeeds, setting only the first matching line's quantity, and getCart then answers the new cart |
| Carts.RemoveItem | controllers/cart.controller.js:66-71 | a null answer without a cart; otherwise every line for the product is pulled and only that cart changes |
| Carts.ClearCart | controllers/cart.controller.js:80-81 | the store's carts become the cleared map, getCart then answers an empty cart or NotFound, and distinctness is kept |
| Ratings.SumBounds | controllers/rating.controller.js:28 | the reduce sum of values in [lo, hi] lies between lo and hi times the count |
| Ratings.MeanBounds | controllers/rating.controller.js:27-28 | the mean of a non-empty list of values in [lo, hi] lies in [lo, hi] |
| Ratings.RatingsInRange | models/rating.model.js:4 | definition: every stored rating value lies in 1..5, the schema's `min` and `max`; kept by `AddRating` and used by `RatingValuesInRange` and `RatedAverage` |
| Ratings.RatingValues | controllers/rating.controller.js:26-28 | the populated rating values are at most as many as the rating ids |
| Ratings.RatingValuesInRange | models/rating.model.js:4 | when every stored rating is in 1..5, so is every populated value |
| Ratings.RatedAverage | controllers/rating.controller.js:21-31 | the new rating id is appended and earlier ids kept; the average times the count, at least one, equals the sum; the average lies in [1, 5] |
| Ratings.AddRating | controllers/rating.controller.js:8-33 | Forbidden without a completed order listing the product; a value outside 1..5 fails the save; both change nothing; otherwise the rating is stored, and the product gets it appended and its average recomputed, or a 500 when the product is gone; stored ratings stay in range |
| Ratings.RatingsByProduct | controllers/rating.controller.js:44-46 | exactly the product's ratings, each once, newest first |
| Sidebar.UserRoles | controllers/sidebar.controller.js:26 | the role list is `[userType]` when a non-empty user type is set, and empty otherwise |
| Sidebar.MenuIdsExact | controllers/sidebar.controller.js:29-31 | a menu is found if and only if its roles contain the user's role, in store order; an empty role list finds nothing |
| Sidebar.VisibleSubmenu | controllers/sidebar.controller.js:35 | the kept submenus are exactly those whose roles include the user type |
| Sidebar.VisibleSubmenuOrderAndIdempotent | controllers/sidebar.controller.js:35 | the submenu filter keeps original order (it distributes over concatenation) and filtering twice equals filtering once |
| Sidebar.WithVisibleSubmenus | controllers/sidebar.controller.js:34-36 | each menu keeps its other fields and has its submenu filtered |
| Sidebar.GetSidebarMenus | controllers/sidebar.controller.js:24-42 | the answer is a fresh array holding the found menus, in order, each with its submenu filtered |
| Sidebar.FilterSubmenusInPlace | controllers/sidebar.controller.js:34-36 | the forEach loop replaces each menu's submenu with its filtered list, in place |
| Sidebar.Patched | controllers/sidebar.controller.js:46-50 | each field present in the update body replaces the stored one, and absent fields are kept |
| Sidebar.UpdateSidebarMenu | controllers/sidebar.controller.js:44-58 | NotFound for a missing menu, changing nothing; otherwise only that menu is patched |
| Sidebar.DeleteSidebarMenu | controllers/sidebar.controller.js:60-70 | NotFound for a missing menu, changing nothing; otherwise exactly that menu is removed |
| Authorize.NormaliseIdempotent | middleware/authorize.js:3 | rebinding `roles` to `Many(Normalise(roles))` leaves the normalised list unchanged, which is what a later request relies on |
| Authorize.Decide | middleware/authorize.js:5-7 | the only refusal is Forbidden |
| Authorize.DecideAdmits | middleware/authorize.js:1-9 | `next` is reached if and only if a user is present and its type is in the normalised roles; with the default roles every request is forbidden; a single role admits exactly that type |
| Authorize.Authorizer.constructor | middleware/authorize.js:1 | the closure starts with the roles argument as given |
| Authorize.Authorizer.Handle | middleware/authorize.js:2-9 | the closure's `roles` is rebound to its normalised list, and the decision is made on that list |
| Authorize.HandleTwice | middleware/authorize.js:1-9 | rebinding `roles` in the first request does not change the decision of a later one |
| Auth.Request.constructor | middleware/auth.middleware.js:4-11 | a request starts with the given `authorization` header and no `user`; the middleware reads the header and writes `user` |
| Auth.Split | middleware/auth.middleware.js:5 | `split(' ')` yields at least one field, none containing a space |
| Auth.JoinSplit | middleware/auth.middleware.js:5 | joining the fields with single spaces gives back the header |
| Auth.SplitWord | middleware/auth.middleware.js:5 | a leading space-free word becomes a prefix of the first field |
| Auth.TokenOf | middleware/auth.middleware.js:4-5 | a token, when found, is non-empty and has no space |
| Auth.BearerToken | middleware/auth.middleware.js:5 | the token is the second field of a header `scheme token …` |
| Auth.TokenExamples | middleware/auth.middleware.js:4-7 | "Bearer abc" gives "abc"; "Bearer  abc" (two spaces), "Bearer" and a missing header give none |
| Auth.RequestUser | middleware/auth.middleware.js:11-14 | `req.user` takes the decoded `id` and `userType` |
| Auth.Authenticate | middleware/auth.middleware.js:3-19 | 401 without a token, and 403 when verification fails, both leaving `req.user` unset; otherwise `req.user` comes from the payload and `next` is called |
| Users.RoleOf | controllers/user.controller.js:9 | the role defaults to `customer` and is otherwise the given one |
| Users.CreateKeepsLinked | controllers/user.controller.js:13-25 | adding a fresh user and login that point at each other keeps every user linked to a login that points back |
| Users.DeleteKeepsLinked | controllers/user.controller.js:152-156 | removing a user together with its login keeps every other user's link intact |
| Users.CreateUser | controllers/user.controller.js:7-66 | an empty email or a role outside the enum stores nothing; an empty name leaves the login saved without a user; otherwise the login carries the hashed password and its role (default `customer`), with `userRef` set to the new user, and the user's `loginRef` is the new login; links stay intact |
| Users.FirstWithEmail | controllers/user.controller.js:73 | finds a login with the email exactly when one exists |
| Users.SignIn | controllers/user.controller.js:69-93 | NotFound exactly when no login has the email; the only other error is InvalidCredentials; a success is a payload `{ loginId, userType }` for a login with that email and a matching password; when every login with the email matches the password the answer is a success, and when none matches it is InvalidCredentials |
| Users.SessionUserHasNoId | controllers/user.controller.js:79-83 | a token issued by login yields a `req.user` with no id, since the payload names `loginId` |
| Users.ViewCustomersExact | controllers/user.controller.js:120-128 | exactly the users whose linked login has role `customer`, in ascending id order, projected to id, name, email, phone and `customer` |
| Users.DeleteUser | controllers/user.controller.js:150-162 | NotFound for a missing user, deleting nothing; otherwise the user and its linked login are both removed, and links stay intact |
| Notifications.GetNotifications | controllers/notification.controller.js:4-11 | exactly the user's notifications, each once, newest first |
| Notifications.MarkedRead | controllers/notification.controller.js:19-20 | only the `read` field of that notification changes, to true; every other notification is unchanged |
| Notifications.MarkedReadIdempotent | controllers/notification.controller.js:19-20 | marking twice equals marking once, and marking a missing id changes nothing |
| Notifications.MarkedReadCommutes | controllers/notification.controller.js:19-20 | marks on two notifications commute |
| Notifications.MarkNotificationAsRead | controllers/notification.controller.js:14-26 | NotFound for a missing id; otherwise the store is marked and the updated notification returned |
| Notifications.DeleteNotification | controllers/notification.controller.js:29-38 | NotFound for a missing id, changing nothing; otherwise exactly that notification is removed |
| Categories.AddCategory | controllers/category.controller.js:4-13 | an empty name stores nothing; otherwise a category with the given name and description and no subcategories is added |
| Categories.WithSubcategory | controllers/category.controller.js:24 | one subcategory is appended at the end, with earlier ones and the other fields unchanged |
| Categories.AppendValidity | controllers/category.controller.js:24-25 | for a valid stored category, the save after the push succeeds exactly when the new subcategory has a name |
| Categories.AddSubcategory | controllers/category.controller.js:16-31 | NotFound for a missing category, changing nothing; a push that fails validation changes nothing; otherwise the subcategory is appended |
| Categories.Renamed | controllers/category.controller.js:49-55 | the update sets name and description and preserves the subcategories |
| Categories.RenamedTwice | controllers/category.controller.js:49-55 | a second update overrides the first |
| Categories.UpdateCategory | controllers/category.controller.js:44-61 | NotFound for a missing id, changing nothing; otherwise only that category's name and description change |
| Categories.DeleteCategory | controllers/category.controller.js:64-75 | NotFound for a missing id, changing nothing; otherwise that category, with its subcategories, is removed and returned |

## Left out

- `routes/*.js`, `server.js` and `swagger/swagger.js`: Express wiring and API documentation, with no rules.
- `utils/mailer.util.js` and every `sendMail` call: SMTP I/O.
- Notifications created as side effects in `placeOrder`, `updateOrderStatus` and `getUserOrders` (controllers/order.controller.js:35-65, 145-178, 95-123): treated as no-ops. These lines use `Notification`, `Login` and `sendMail` without importing them, read `savedOrder` before it is declared, and name undefined variables. The model follows the intended validate, then debit, then record logic, not the resulting runtime 500s.
- `getAllOrders` and `getUserOrders` (controllers/order.controller.js:73-94): plain queries with `populate` projections.
- `createSidebarMenu`, `getCategories`, `viewUser`, `viewUsers` and `updateUser`: they pass the request straight to the store.
- `controllers/product.controller.js`: create and update pass the body through, with no rules beyond not-found.
- Password hashing, password comparison and token verification: foreign cryptography, modelled as the function parameters `hash`, `matches` and `verify`. The token's expiry is part of `verify`.
- Token signing (`jwt.sign`, controllers/user.controller.js:79-83): left abstract. `Users.SignIn` answers the payload that would be signed.
- Mongoose `populate` projections, `unique` indexes, schema fields without behaviour (icons, badges, prices, model numbers) and timestamps other than `createdAt`.
- The id and `createdAt` that the store assigns: both are parameters.
- Concurrent requests and the check-then-debit race in `placeOrder`: the model runs one request at a time.
- IEEE floating point: `averageRating` is a `real`, and quantities are unbounded integers.
- Orders.PlaceOrder: models/order.model.js is not part of this model, so the order schema's own validation of the saved order is not modelled. Quantities are integers, so JavaScript's comparison of non-numeric quantities is not modelled either.
- Categories.UpdateCategory: a body field that is absent from the request is modelled as the empty string rather than as a key Mongoose drops from the update.
- Authorize.Authorizer.Handle: a `next()` that throws inside the middleware, which Express would turn into an error response, is not modelled.
- Users.CreateUser: a request without a password, which makes `bcrypt.hash` throw and the handler answer 500 before anything is saved (controllers/user.controller.js:11), is not modelled; `password` is always a string that `hash` accepts.
- Malformed ids: a `findById`, `findByIdAndUpdate`, `findByIdAndDelete` or `findOne({ user })` given a value that is not a valid ObjectId throws a cast error and the handler answers 500 (for example controllers/order.controller.js:11,142, controllers/cart.controller.js:21,47, controllers/sidebar.controller.js:46,62, controllers/notification.controller.js:16,31, controllers/category.controller.js:21,49,67, controllers/user.controller.js:152). Ids are `nat`, so every "NotFound for a missing id" contract is about a well-formed id.
- The cart schema: models/cart.model.js is not part of this model, so the validation failures of `cart.save()` (controllers/cart.controller.js:34,54) are not modelled; every cart save succeeds.
- Ratings.AddRating: as written, controllers/rating.controller.js:11 uses `Order`, which lines 1-2 never import, so the purchase check throws a ReferenceError and every `addRating` answers 500 and stores nothing. The model follows the intended purchase check against the orders collection instead.
- Carts.AddToCart / Carts.UpdateQuantity: ids are compared in their canonical form. The source finds a cart line by comparing strings, `item.product.toString() === productId` (controllers/cart.controller.js:26,50), while a pushed `product` and the filter of the `$pull` in removeItem (line 68) are cast to an ObjectId. So the same ObjectId written another way, for example in upper-case hex, escapes the source's match. addToCart then pushes a second line for the same product, and the cart's product ids are no longer distinct. updateQuantity answers 404 "Item not in cart" although the line exists. The model has one spelling per id, so neither happens in it.
