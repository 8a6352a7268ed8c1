# printpeak storefront — a Dafny model of its request handlers and page logic

printpeak is a print-on-demand storefront. Customers browse products and add
them to a cart. They order a product with an uploaded design, either directly
or through a card-payment session. Administrators manage users, products and
order statuses. This project models the core of that system as pure Dafny
functions over one immutable store, `Models.Db`, which holds the users,
products, cart entries and orders collections as sequences.

Each backend handler takes the store, the request fields and the outcomes of
the external services. It returns an `Outcome`: the new store and the reply,
which is an HTTP status and a body that is either a message or a JSON value.
Fresh record identifiers and the current time are parameters (`newId`,
`now`).

- Image uploads are an `Upload` outcome: no file, an uploaded URL, or a
  failure.
- The payment gateway's session is an `Option<string>`.
- The stored password is the injective `Hashed` abstraction of the pre-save
  hashing hook.

JavaScript semantics that decide branches are spelled out:

- `x || old` falls back on falsy values (`""`, `0`, undefined).
- `x ?? old` falls back on null or undefined; a JSON null in a request body is modelled as an absent field (see Left out).
- Undefined keys are stripped from a `findByIdAndUpdate` document.
- A template literal renders an undefined value as `"undefined"`.
- `trim` is modelled on the ECMAScript white-space characters; `toLowerCase` only on the letters A-Z (see Left out).

The frontend part models the decisions the pages take on what they fetch and
store:

- the registration password rules and the login non-blank check;
- the remembered "add to cart" / "buy now" action and its replay after
  sign-in;
- the buy form's card/direct dispatch;
- the product sort options;
- the order status timeline and the spend figures;
- the administrator's product form, status badges and delete button;
- the navigation bar's admin test and logout.

Modules follow the program's structure:

| module | file | models |
|---|---|---|
| `Models` | models.dfy | records, store, replies, JavaScript fallbacks, id lookups |
| `Sorting` | sorting.dfy | stable sort by key (Mongo `sort`, `Array.prototype.sort`) |
| `Cart` | cart.dfy | `/api/cart` routes and the cart controller |
| `Orders` | orders.dfy | `/api/orders` routes and the order controller |
| `Admin` | admin.dfy | the admin controller |
| `Catalog` | catalog.dfy | the product controller |
| `Accounts` | accounts.dfy | profile update, password change, admin seeding script |
| `ClientForms` | client_forms.dfy | Register and Login form checks |
| `ClientSession` | client_session.dfy | local storage, pending action, login page, navigation bar |
| `ClientOrders` | client_orders.dfy | order timeline, costs, spend, dashboard counters |
| `ClientCheckout` | client_checkout.dfy | buy form, add reply, sorting, admin product form and cards |
| `Scenarios` | scenarios.dfy | properties that span server handlers and pages |

## Model

| member | source | states |
|---|---|---|
| Models.ParseStatus | backend/models/Order.js:11-15 | A status string is accepted exactly when it is the spelling of one of the four enum values, and it then parses to that value |
| Models.FindIndex | backend/controllers/adminController.js:41 | `findById` finds the first record with the id, and finds nothing exactly when no record carries it |
| Models.RemoveAt | backend/controllers/adminController.js:158 | Deleting one record keeps every other record, in order |
| Models.RemoveAtUnique | backend/controllers/adminController.js:158 | Deleting a record from a store with unique ids leaves unique ids and no trace of the deleted id |
| Models.FindProduct | backend/routes/cartRoutes.js:29 | Populating a product reference yields a stored product with that id, or null exactly when none exists |
| Models.FindUser | backend/routes/authRoutes.js:64 | A user lookup yields a stored user with that id, or nothing exactly when none exists |
| Models.CastNumber | backend/controllers/productController.js:19 | Casting form text to a Number succeeds only on decimal integer text, optionally negative, and yields its value |
| Models.DecimalTextRoundTrip | frontend/src/pages/AdminDashboard.js:214-223 | Any integer printed with `String` casts back to itself |
| Sorting.SortBy | backend/controllers/productController.js:6 | Sorting returns a permutation of its input, ordered by the key |
| Sorting.SortedIsFixpoint | frontend/src/pages/Products.js:158-165 | A list already ordered by the key comes back unchanged, so sorting twice is sorting once |
| Sorting.SortStable | frontend/src/pages/Products.js:158-165 | The sort is stable: the items of any one key come out in the order they went in |
| Cart.Add | backend/routes/cartRoutes.js:8-24 | An existing (user, product) pair gets "Already in cart" with the store unchanged. A new pair is appended and replied with its product populated. A missing reference is a 500 that saves nothing. Other collections are untouched, and a duplicate-free cart stays duplicate-free |
| Cart.AddTwice | backend/routes/cartRoutes.js:12-19 | Two sequential adds of one pair leave exactly one entry for it, and the second reply is "Already in cart" |
| Cart.NoDuplicatesBoundCount | backend/routes/cartRoutes.js:12-19 | In a duplicate-free cart each pair occurs at most once, and occurs once exactly when `findOne` finds it |
| Cart.CartOf | backend/routes/cartRoutes.js:29 | `Cart.find({ user })` returns exactly the stored entries of that user |
| Cart.ListCart | backend/routes/cartRoutes.js:27-47 | Both listing routes reply 200 with the user's entries in store order, each with its own product populated |
| Cart.ListAfterAdd | backend/routes/cartRoutes.js:15-19 | A successful add appears at the end of its user's listing and in no other user's listing |
| Cart.FirstPair | backend/routes/cartRoutes.js:52 | The entry `findOneAndDelete` removes is the first one matching the pair, and it finds none exactly when no entry matches |
| Cart.RemoveItem | backend/routes/cartRoutes.js:50-61 | Replies "Removed from cart" whether or not an entry matched. At most the first matching entry is deleted, so the cart shrinks by one exactly when the pair was present |
| Cart.RemoveCartItem | backend/controllers/cartController.js:16-24 | The controller's removal has exactly the route's store effect, with the reply "Item removed from cart" |
| Cart.RemoveLeavesNoPair | backend/routes/cartRoutes.js:50-61 | Removing a pair from a duplicate-free cart leaves no entry for that pair, and the cart stays duplicate-free |
| Cart.RemoveKeepsOtherPairs | backend/routes/cartRoutes.js:50-61 | Removing one pair keeps the exact number of entries of every other pair |
| Cart.WithoutUser | backend/routes/cartRoutes.js:66 | `deleteMany({ user })` keeps exactly the entries of the other users |
| Cart.ClearCart | backend/routes/cartRoutes.js:64-72 | Clearing replies "Cart cleared", drops only that user's entries, and leaves that user's listing empty |
| Cart.WithoutUserKeepsNoDuplicates | backend/routes/cartRoutes.js:66 | Dropping one user's entries keeps a duplicate-free cart duplicate-free |
| Cart.ClearKeepsOtherUsers | backend/controllers/cartController.js:27-35 | Clearing one user's cart leaves every other user's listing as it was |
| Cart.ClearIdempotent | backend/controllers/cartController.js:27-35 | Clearing twice has the same store and reply as clearing once |
| Orders.UnitAmount | backend/routes/orderRoutes.js:96 | The charged unit amount is the larger of the price in minor units and the 5000 minimum |
| Orders.PlaceCustom | backend/routes/orderRoutes.js:14-53 | A direct order saves one Pending order with quantity 1, carrying the form's fields and the uploaded design URL ("" without a file), and replies 201. A failed upload or a missing reference is a 500 that saves nothing. Only the orders collection changes |
| Orders.CustomOrderListed | backend/routes/orderRoutes.js:36-44 | A direct order appears last in its user's order listing, and the rest of the listing is unchanged |
| Orders.CreateCardSession | backend/routes/orderRoutes.js:56-126 | An unknown product is a 404 with nothing requested or saved. Otherwise one line item is sent, labelled "name - Size: size", priced at the unit amount, quantity 1. As soon as a session exists the Pending order is saved, before any payment, and the session id is replied. Nothing is ever saved without a session |
| Orders.CreationKeepsIdsUnique | backend/routes/orderRoutes.js:107-118 | Both order routes keep order identifiers unique when given a fresh identifier |
| Orders.PlaceOrder | backend/controllers/orderController.js:4-33 | Replies 201 exactly when both references are given and the requested status (Pending when omitted) is one of the enum values. The order stores the body's fields unchanged. Every failure is a 500 that saves nothing |
| Orders.OrdersOf | backend/controllers/orderController.js:38 | `Order.find({ user })` returns exactly the stored orders of that user |
| Orders.GetOrdersByUser | backend/controllers/orderController.js:36-43 | Replies 200 with the user's orders, in store order, each with its product populated |
| Admin.GetAllUsers | backend/controllers/adminController.js:8-15 | Lists every user in store order with every field except the password |
| Admin.DeleteUser | backend/controllers/adminController.js:18-25 | Replies "User deleted" even for an unknown id. A known id removes exactly the first user with it, keeping the rest in order, and with unique ids leaves no user with it. Other collections are untouched |
| Admin.Admins | backend/controllers/adminController.js:30 | `deleteMany({ isAdmin: false })` keeps exactly the administrators |
| Admin.DeleteAllUsers | backend/controllers/adminController.js:28-35 | After the bulk deletion every remaining user is an administrator, every administrator remains, and no user is added |
| Admin.AdminsIdempotent | backend/controllers/adminController.js:28-35 | Bulk deletion is idempotent |
| Admin.UpdateUser | backend/controllers/adminController.js:38-53 | An unknown id is a 404. Name and email fall back to the stored value when absent or "". The admin flag falls back only when absent, so an explicit false demotes. Nothing else about the user changes |
| Admin.UpdateUserReadBack | backend/controllers/adminController.js:38-53 | The user an update replies is the one found afterwards by its id, and the admin user listing shows it without its password at the same place |
| Scenarios.AdminProductListingMatchesCatalog | backend/controllers/adminController.js:58-65 | The admin product list holds exactly the products of the public listing, with the same multiplicities; only the order differs |
| Admin.GetAllProducts | backend/controllers/adminController.js:58-65 | Replies every stored product in store order; Scenarios.AdminProductListingMatchesCatalog shows these are exactly the public listing's products |
| Admin.DeleteAllProducts | backend/controllers/adminController.js:78-85 | Empties the products collection and touches nothing else |
| Admin.UpdateProduct | backend/controllers/adminController.js:88-107 | An unknown id is a 404. Name and description fall back to the stored value when falsy. The price arrives as form text: empty or absent keeps the stored price, any other text ("0" included) is cast and stored, and text that is not a number is a 500 that changes nothing. The image changes only when the upload gave a non-empty path |
| Admin.CreateProduct | backend/controllers/adminController.js:110-126 | Without an uploaded file, or with a price text that is not a number, it is a 500 that saves nothing. Otherwise the product is saved with the cast price and the file's path, and replied with 200 |
| Admin.GetAllOrders | backend/controllers/adminController.js:131-140 | Lists every order in store order. Each carries its customer's id, name and e-mail and its product's name, price, image and description, or null exactly when the reference dangles |
| Scenarios.AdminListingCoversUserListings | backend/controllers/adminController.js:131-140 | Every order a customer's listing shows is in the admin listing, with the same product's fields populated |
| Scenarios.AdminCreateAgreesWithCatalog | backend/controllers/adminController.js:110-126 | With a file and a numeric price, the admin and product-controller creation routes store the same product and reply it, with statuses 200 and 201 |
| Admin.UpdateOrderStatus | backend/controllers/adminController.js:143-154 | An unknown id is a 404. A falsy status keeps the stored one. A status outside the enum is a 500 with nothing changed. Otherwise only that order's status changes |
| Admin.StatusReadBack | backend/controllers/adminController.js:143-154 | A valid status written through the admin route is the status stored on the order with that id, and that order is still in the store |
| Admin.DeleteOrder | backend/controllers/adminController.js:157-166 | An unknown id is a 404 that changes nothing. A known id removes exactly the first order with it, keeping the rest in order, and with unique ids leaves no order with it |
| Admin.DeleteOrderTwice | backend/controllers/adminController.js:157-166 | With unique ids, a second delete of the same order is a 404 that changes nothing |
| Admin.DeleteAllOrders | backend/controllers/adminController.js:169-176 | Empties the orders collection and touches nothing else |
| Catalog.GetAllProducts | backend/controllers/productController.js:4-11 | Replies every product, newest first: a permutation of the store ordered by descending creation time |
| Catalog.CreateProduct | backend/controllers/productController.js:14-26 | A price text that is not a number is a 500 that saves nothing. Otherwise saves and replies (201) a product with the given fields, the cast price, and the uploaded path as image or none |
| Catalog.CreatedProductListed | backend/controllers/productController.js:4-26 | A created product joins the public listing, next to exactly the earlier products |
| Catalog.CreateThenFind | backend/controllers/productController.js:14-26 | A product created with a fresh id is found again by that id with every field as supplied |
| Catalog.UpdateProduct | backend/controllers/productController.js:29-49 | A price text that is not a number is a 500 that changes nothing, for any id. Otherwise absent fields keep the stored value while present ones overwrite it, even when empty. The image changes only when a non-empty file path came. An unknown id replies null with 200 |
| Catalog.DeleteProduct | backend/controllers/productController.js:52-59 | Replies "Product deleted" even for an unknown id. A known id removes exactly the first product with it, keeping the rest in order, and with unique ids leaves none with that id |
| Accounts.UpdateProfile | backend/routes/authRoutes.js:40-56 | A failed upload is a 500 that changes nothing. An unknown id replies a null user. Otherwise absent fields keep the stored value, the profile image changes only when a file was uploaded, and the password and admin flag are untouched |
| Accounts.UpdateProfileReadBack | backend/routes/authRoutes.js:40-56 | The user a successful profile update replies is the one found afterwards by its id |
| Accounts.ChangePassword | backend/routes/authRoutes.js:60-78 | An unknown id is a 404. A wrong old password is a 400 "Incorrect old password"; a missing old or new password is a 500. The change succeeds exactly when both passwords are given and the old one matches the stored hash, and then only that user's password changes. Every other reply leaves the store unchanged |
| Accounts.ChangePasswordTakesEffect | backend/routes/authRoutes.js:67-71 | After a change, a further change succeeds exactly when it quotes the new password |
| Accounts.CreateAdmin | backend/createAdmin.js:12-23 | With no account at admin@printpeak.com, the script appends the seeded administrator. Otherwise it changes nothing. An account with that address exists afterwards |
| Accounts.CreateAdminIdempotent | backend/createAdmin.js:12-23 | Running the script twice is the same as running it once |
| Accounts.CreateAdminCount | backend/createAdmin.js:12-23 | The script never creates a second account with the administrator's address |
| ClientForms.FirstUppercase | frontend/src/pages/Register.js:27 | `/[A-Z]/` finds the first upper-case letter, and finds none exactly when the password has no letter A-Z |
| ClientForms.CheckPassword | frontend/src/pages/Register.js:26-29 | Each indicator holds exactly when its rule holds: at least 6 UTF-16 code units, some letter A-Z, confirmation equal. The form is valid exactly when all three hold |
| ClientForms.RegisterSubmit | frontend/src/pages/Register.js:31-36 | An invalid form sets "Please meet all password requirements." and sends nothing. A valid one sends the fields as typed |
| ClientForms.RegisterButtonDisabled | frontend/src/pages/Register.js:195 | The button is disabled exactly when some password rule fails, the length counted in UTF-16 code units |
| ClientForms.LengthCountsCodeUnits | frontend/src/pages/Register.js:26 | A password of four letters and one emoji has length 6 and passes; five letters do not |
| ClientForms.ButtonMatchesGuard | frontend/src/pages/Register.js:31-36 | The button is disabled exactly when a submission would be refused |
| ClientForms.TrimStart | frontend/src/pages/Login.js:25 | Leading trim drops exactly the leading ECMAScript white space |
| ClientForms.TrimEnd | frontend/src/pages/Login.js:25 | Trailing trim drops exactly the trailing ECMAScript white space |
| ClientForms.TrimEmptyIff | frontend/src/pages/Login.js:25 | A string trims to "" exactly when every character is white space |
| ClientForms.LoginFormValid | frontend/src/pages/Login.js:25 | The login form is valid exactly when both email and password contain a non-white-space character |
| ClientSession.RequestAction | frontend/src/pages/Products.js:30-94 | Without a signed-in id, a click remembers the action and asks for login. With one, it opens the confirmation and leaves storage alone. A stored user that does not parse (empty, `undefined`, malformed) throws at render, so nothing is remembered or shown |
| ClientSession.UndefinedUserBlocksProductPages | frontend/src/pages/Products.js:30 | After a login reply without a user stores `undefined`, a product-page click changes nothing and the login page navigates nowhere |
| ClientSession.LoginSucceeded | frontend/src/pages/Login.js:37-51 | Stores the token, user and id. The modal shown is decided by the remembered action: cart prompt, buy-now prompt, nothing for another type, welcome when none |
| ClientSession.CartOk | frontend/src/pages/Login.js:57-76 | Posts the remembered product for the stored user. The action is forgotten, and the cart page targeted, only when the request succeeded |
| ClientSession.BuyNowOk | frontend/src/pages/Login.js:78-89 | Moves the remembered action to `openBuyNow` and keeps the session |
| ClientSession.LoginTarget | frontend/src/pages/Login.js:91-98 | Goes to /admin exactly when the stored flag is truthy, and to /dashboard for a missing user or a falsy flag. Unparsable storage navigates nowhere |
| ClientSession.ConsumeOpenBuyNow | frontend/src/components/ProductCard.js:32-36 | Only the card of the remembered product opens the buy form and clears the entry |
| ClientSession.ReplayPending | frontend/src/pages/Products.js:39-56 | The remembered action is replayed and forgotten exactly when a user is stored and its product is loaded. Otherwise it stays stored |
| ClientSession.CartPage | frontend/src/pages/Cart.js:31-167 | Without a signed-in id the cart is not fetched and the login prompt opens; a user that does not parse leaves no page; otherwise the signed-in user's cart is fetched with the stored address prefilled when present |
| ClientSession.CartPageAgreesWithProductPages | frontend/src/pages/Cart.js:31 | The cart page fetches exactly when a product click would confirm, for the same user, and prompts for login exactly when the click would |
| ClientSession.CartPageAcrossSignIn | frontend/src/pages/Cart.js:154-167 | After signing in the cart page fetches that user's cart; after logout it prompts for login again |
| ClientSession.BuyNowRoundTrip | frontend/src/pages/Login.js:78-89 | A visitor who asks to buy, signs in and confirms gets the buy form on that product's card and no other |
| ClientSession.AddToCartRoundTrip | frontend/src/pages/Login.js:57-76 | A visitor who asks to add, signs in and confirms sends the add for that product. The action is forgotten exactly when the add succeeds |
| ClientSession.SignInThenOut | frontend/src/components/AppNavbar.js:9-28 | After a sign-in the navigation bar shows the stored user; after logout it shows nobody and no admin link, and the remembered action is kept |
| ClientSession.NavbarUser | frontend/src/components/AppNavbar.js:9-21 | The bar shows a user exactly for a parsed stored user; missing, empty, `undefined` and unparsable storage are signed out. ClientSession.SignInThenOut shows the user appears on sign-in and goes on logout |
| ClientSession.NavbarIsAdmin | frontend/src/components/AppNavbar.js:21 | Admin exactly when the role is "admin" or the flag is the boolean true |
| ClientSession.ProfileLinkIsLoginTarget | frontend/src/components/AppNavbar.js:108 | With a boolean flag and no "admin" role, the profile link leads where the login page navigates after sign-in |
| ClientSession.ProfileLink | frontend/src/components/AppNavbar.js:108 | The link is /admin exactly for the bar's administrators and /dashboard otherwise; ClientSession.ProfileLinkIsLoginTarget shows it is where the login page navigates on boolean flags |
| ClientSession.Logout | frontend/src/components/AppNavbar.js:24-28 | Logout removes the user and token only, leaving remembered actions |
| ClientSession.AdminTestsAgreeOnBooleans | frontend/src/components/AppNavbar.js:21 | With a boolean flag and no "admin" role, the login page and the navigation bar agree on who is an administrator |
| ClientSession.AdminTestsDisagree | frontend/src/pages/Login.js:93 | With a role-only admin or a truthy non-boolean flag, the two admin tests disagree |
| ClientOrders.Lower | frontend/src/pages/Orders.js:82 | Lower-casing maps each character, keeping the length |
| ClientOrders.LowerStatusName | frontend/src/pages/Orders.js:15 | Each stored status spelling is its own timeline step, and lower-cases to that step's lower-case name |
| ClientOrders.StatusIndex | frontend/src/pages/Orders.js:81-82 | The index is the first step whose name matches the status case-insensitively, or -1 exactly when none matches |
| ClientOrders.LowerStepNames | frontend/src/pages/Orders.js:15 | The four step names lower-case to "pending", "shipped", "delivered" and "cancelled" |
| ClientOrders.StatusIndexIgnoresCase | frontend/src/pages/Orders.js:81-85 | The timeline index and the cancelled test give the same answer for a status and its lower-case form |
| ClientOrders.StatusNamesIndexed | frontend/src/pages/Orders.js:81-82 | Any spelling of a status that matches case-insensitively indexes that status's step |
| ClientOrders.ActiveSteps | frontend/src/pages/Orders.js:92-93 | A step is highlighted exactly when it is not past the current status and the order is not cancelled |
| ClientOrders.ActiveStepsArePrefix | frontend/src/pages/Orders.js:84-93 | Highlighted steps form a prefix. A cancelled order highlights none; any other order highlights exactly the steps up to its own |
| ClientOrders.ProgressBarShown | frontend/src/pages/Orders.js:157 | The progress bar is drawn exactly when the status is not the Cancelled step |
| ClientOrders.CostScales | frontend/src/pages/Orders.js:215 | An order of q items costs q times the same order of one item |
| ClientOrders.TotalSpent | frontend/src/pages/Orders.js:47-52 | The accumulation loop computes the sum of the shown costs |
| ClientOrders.SpendFiguresAgree | frontend/src/pages/Dashboard.js:66 | When every order counts once, the dashboards' price sum equals the orders page's cost sum |
| ClientOrders.SpendFiguresDiffer | frontend/src/pages/Orders.js:49-51 | One order of quantity 2 makes the two spend figures differ |
| ClientOrders.PriceSumIsUnitCost | frontend/src/pages/Dashboard.js:66 | The dashboards' spend equals the orders page's total with every quantity cleared |
| ClientOrders.CartTotalIsDashboardSpend | frontend/src/pages/Cart.js:37 | Over the same products, the cart total is the dashboards' spend |
| Scenarios.StatsFetchedForSignedInUser | frontend/src/pages/Dashboard.js:47-56 | The dashboards fetch their figures exactly when the navigation bar shows a signed-in user: a missing, empty, `undefined` or unparsable entry stops them first |
| ClientOrders.FetchesStats | frontend/src/pages/Dashboard.js:47-56 | The dashboards request their figures exactly when the navigation bar shows a signed-in user (Scenarios.StatsFetchedForSignedInUser relates it to the bar's reading) |
| ClientOrders.DashboardStats | frontend/src/pages/Dashboard.js:62-70 | The counters are the list lengths, 0 when a reply has no data. The spend is the orders page's total over the same orders with every quantity taken as one |
| ClientOrders.CartFigures | frontend/src/pages/Cart.js:37-41 | The cart count is the number of items, and the total is the orders page's total over one item of each product (0 when no item has a product) |
| ClientCheckout.BuySubmit | frontend/src/pages/Products.js:113-155 | Any missing field shows "Missing Fields" and sends nothing. Card payment goes only to the session route, any other method only to the direct-order route, with the form's fields |
| ClientCheckout.OrderFormOf | frontend/src/components/ProductCard.js:119-161 | The request carries the signed-in id, the product and the form's size, method and address |
| ClientCheckout.CartBuySubmit | frontend/src/pages/Cart.js:97-150 | Same first request; a placed direct order is followed by removing that item from the cart; a card payment leaves the cart alone |
| ClientCheckout.AddReplyModal | frontend/src/components/ProductCard.js:60-74 | A non-2xx reply shows the error modal, a 2xx "Already in cart" its own modal, any other 2xx the success modal |
| ClientCheckout.FilteredProducts | frontend/src/pages/Products.js:158-165 | Each sort option yields a permutation of the products in its order (name by locale rank, price, newest first), and products that tie keep their fetched order; an unknown option keeps the original order |
| ClientCheckout.ProductSubmit | frontend/src/pages/AdminDashboard.js:166-208 | An edit is always sent as an update, with an image only when one was chosen. A new product without an image shows the warning and sends nothing |
| ClientCheckout.EditDraft | frontend/src/pages/AdminDashboard.js:214-223 | Editing fills the form from the product, with no new image and the product's id; the price text casts back to the stored price |
| ClientCheckout.EditSendsNoImage | frontend/src/pages/AdminDashboard.js:166-223 | Saving an edit without choosing a file sends an update for that product with no image part, carrying its stored name, description and a price text that casts to its price |
| ClientCheckout.BadgeVariant | frontend/src/pages/AdminDashboard.js:719-723 | Each of Pending, Shipped and Delivered gets its own colour exactly for its exact spelling; everything else is "secondary" |
| ClientCheckout.BadgesDistinguishStoredStatuses | frontend/src/pages/AdminDashboard.js:719-723 | Distinct stored statuses other than Cancelled get distinct, non-default colours |
| Scenarios.AddReplyModalMatchesStore | frontend/src/components/ProductCard.js:60-74 | The add reply shows "Already in Cart" exactly for a stored pair, "Added" for a new pair, the error modal for a missing id |
| Scenarios.DirectOrderFromForm | frontend/src/components/ProductCard.js:119-161 | A complete direct-method buy form creates a Pending order of quantity 1 carrying the form's size, method, address and the uploaded design |
| Scenarios.HandlersKeepQuantityOne | backend/models/Order.js:10 | No order handler ever stores a quantity other than 1 |
| Scenarios.SpendAgreesOnStoredOrders | frontend/src/pages/Orders.js:47-52 | On any store the handlers produce, the orders page's total equals the dashboards' spend for a user's listing |
| Scenarios.StatusUpdateVisible | backend/controllers/adminController.js:143-154 | A status the admin sets succeeds, the order stays in its owner's listing with that status, and the timeline points at its step |
| Scenarios.DeleteButtonMatchesBulkDelete | frontend/src/pages/AdminDashboard.js:657 | A user's delete button is disabled exactly when the bulk deletion keeps that user |
| ClientCheckout.DeleteUserDisabled | frontend/src/pages/AdminDashboard.js:657 | The delete button is disabled exactly for administrators, which Scenarios.DeleteButtonMatchesBulkDelete shows are exactly the users the bulk deletion keeps |
| Scenarios.DeleteAllOrdersEmptiesListings | backend/controllers/adminController.js:169-176 | After the bulk order deletion every customer's order listing and the admin listing are empty |
| Scenarios.DeleteAllProductsLeavesDangling | backend/controllers/adminController.js:78-85 | Deleting every product keeps cart entries and orders, which are then listed with no product |
| Scenarios.UpdateHandlersDisagreeOnEmptyName | backend/controllers/adminController.js:88-107 | Sending an empty name keeps the stored name through the admin handler but stores the empty name through the product controller |
| Scenarios.EditUnchangedKeepsProduct | frontend/src/pages/AdminDashboard.js:166-223 | Saving an edited product without changing a field or choosing a file leaves the store unchanged and replies the stored product, image included |
| Scenarios.SeededAdminSeesAdminPages | backend/createAdmin.js:16-22 | The seeded account is an administrator to both the login page and the navigation bar |

## Left out

- Authentication: the token middleware, the admin gate and the register and login controllers are not part of this model. Their sources and the User and Product schemas are not part of this model either. The handlers here assume an authorised caller.
- User and Product schema constraints (unique e-mail, required fields) are not modelled. `matchPassword` is taken to be a hash comparison that throws on an absent password.
- The database, Cloudinary and Stripe are replaced by outcome parameters. The race between the cart's existence check and its insert is not modelled, because requests are applied one at a time.
- Identifier generation is a `newId` parameter, and the clock is a `now` integer. Date parsing and arithmetic are not modelled.
- Prices are integers, and a JSON null in a request body is treated like an absent field.
- `localeCompare` is an abstract ranking function on names.
- Orders.CreateCardSession: the gateway's own checks (amount limits, currency) and the success and cancel URLs are not modelled.
- ClientOrders.Lower: only A-Z are lower-cased. Every status name is ASCII, so the timeline lookup is unaffected for the four statuses.
- React rendering, modals' text, navigation timing, progress-bar widths, the axios layer and page layout are left out. Only the decisions the pages take are modelled.
- The cart controller is modelled even though the server only mounts the cart routes. Likewise the order controller's `placeOrder` (Orders.PlaceOrder) is modelled although the order routes import only `getOrdersByUser`.
- Client JSON parsing is modelled only through the stored-user cases the pages' guards distinguish; stored text `null` is not one of them.
- Models.CastNumber: only decimal integer text is modelled. Other text that JavaScript's Number accepts (surrounding white space, a leading '+', fractions, exponents, hexadecimal) is treated as a cast failure.
- Catalog.UpdateProduct: an empty price text, which Mongoose stores as null, is modelled as a cast failure (a 500).
- Catalog.CreateProduct: an empty price text is likewise modelled as a cast failure; the Product schema that would decide it is not part of this model.
- Admin.CreateProduct: an empty price text is likewise modelled as a cast failure (a 500), for the same reason.
- The product controller's failure replies carry their text under `error` rather than `message`; both are modelled as a `Message` body.
