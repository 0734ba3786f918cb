# A verified model of a food-delivery marketplace

This project models the rules of a food-delivery marketplace in Dafny. Customers order dishes from stores near them. Merchants confirm and prepare those orders. Shippers pick them up and deliver them. The system has a Django backend and a React frontend; both are modelled here.

What the model covers:

- **Orders and stock** (`orders_model.dfy`, `orders_rules.dfy`, `orders_checkout.dfy`, `orders_engine.dfy`). The order endpoints act on one `Marketplace` object that holds the stores, memberships, dishes and orders. Its methods are:
  - checkout, which is all-or-nothing;
  - cancel;
  - the role-checked status change;
  - shipper pickup and completion;
  - stock adjustment;
  - the merchant's out-of-stock actions;
  - refunds;
  - the shipper's queue of waiting orders.

  Each method is proved against pure decision and effect functions. Lemmas tie those functions together, for example: checkout followed by cancel gives every dish its stock back.
- **Maintenance scripts**. `restore_stock.dfy` models the batch restock of cancelled orders. `merchant_accounts.dfy` models per-store account creation, with username derivation and the collision loop. `menu_seeding.dfy` models menu seeding. `export_accounts.dfy` models the regional account export.
- **Stores and menus** (`menus_model.dfy`, `menus_views.dfy`, `params.dfy`). These cover the nearby-store and nearby-dish searches, reading their query parameters, and which dishes each role can see.
- **Accounts** (`accounts.dfy`). This covers profiles and roles, one-time codes (creation, expiry clean-up, choosing the latest match, single use), registration and its case-insensitive uniqueness, merchant registration, confirmation, password reset and login.
- **Customer pages**:
  - `cart.dfy`: the cart, its totals, and the add, update and remove operations on the stored cart;
  - `checkout.dfy`: the checkout page's validation, request and error handling;
  - `customer_app.dfy`: the home page's product list and search;
  - `restaurant_detail.dfy`: the restaurant page;
  - `customer_orders.dfy`: the customer's order list.
- **Location** (`location_hook.dfy`, `location_context.dfy`, `location_permission.dfy`):
  - loading and expiring the saved position;
  - the force flag;
  - GPS sampling for the most accurate fix;
  - formatting addresses from reverse geocoding;
  - the list of forward-geocoding candidates, with the Biên Hòa fallback.
- **Merchant pages** (`merchant_order_page.dfy`, `merchant_dashboard.dfy`): "… ago" texts, status badges and labels, which buttons each status offers, and the dashboard figures.

`wrappers.dfy`, `text.dfy` and `lists.dfy` hold shared pieces:
- `Option`;
- the case mapping, trimming, searching, splitting and number formatting that the Python and JavaScript code relies on;
- filtering and a stable sort.

Money is a whole number of minor units. Distances, clocks, random draws and replies from remote services are parameters of the operations that use them.

## Model

| member | source | states |
|---|---|---|
| OrderModel.ParseStatus | backend/orders/models.py:17-24 | a stored status reads as one of the seven choices exactly when it spells one; any other text is kept as it is |
| OrderModel.ParseStatusCode | backend/orders/models.py:17-24 | storing a well-formed status and reading it back gives the same status |
| OrderModel.StatusCodeParse | backend/orders/models.py:57-62 | reading the status column and storing the result writes back the same text |
| OrderModel.NewOrder | backend/orders/models.py:57-76 | a new order is PENDING and UNPAID, with total 0, no shipper and no lines |
| OrderModel.SumsAgree | backend/orders/models.py:155-159 | when every line total is its snapshot price times its quantity, the sum of line totals is the sum of price times quantity |
| OrderRules.UserRole | backend/orders/views.py:18-25 | the role is the profile's role when it is present and non-empty, otherwise "customer"; it is never empty |
| OrderRules.UserMerchants | backend/orders/views.py:28-35 | a store is the user's exactly when the user owns it or is a member of it |
| OrderRules.StaffGate | backend/orders/views.py:1465-1479 | a merchant-side endpoint opens exactly for an admin, or a merchant acting on one of their stores, when the object exists |
| OrderRules.RestockEffect | backend/orders/views.py:420-427 | the restock loop gives every dish back exactly the quantity the lines hold of it, sets availability when stock is positive and never clears it, and leaves dishes the lines do not name untouched |
| OrderRules.Restorable | backend/orders/views.py:421 | the loop acts only on lines whose dish still exists |
| OrderRules.RestockTwice | backend/restore_stock_for_canceled_orders.py:25-39 | restocking the same lines twice gives their quantities back twice |
| OrderRules.CheckoutThenRestock | backend/orders/views.py:238-318 | checkout followed by the restock of its lines gives every dish its stock back; an untouched dish is exactly as before, an ordered one is available iff its stock is positive |
| OrderRules.CancelledOrder | backend/orders/views.py:462-468 | a cancelled order is CANCELED, a paid one becomes REFUNDED, and nothing else changes |
| OrderRules.CancelDecision | backend/orders/views.py:441-455 | a cancel succeeds exactly on the caller's own order in PENDING or CONFIRMED |
| OrderRules.CancelOnce | backend/orders/views.py:449-455 | a cancelled order cannot be cancelled again, so its stock comes back once |
| OrderRules.MaySetStatus | backend/orders/views.py:396-411 | the role table: a customer may only cancel their own order, a merchant may only confirm, cancel or ready their stores' orders, an admin anything, other roles nothing |
| OrderRules.SetStatusDecision | backend/orders/views.py:380-411 | a status change goes through exactly when the order exists, a non-empty status is given and the role table allows it |
| OrderRules.CustomerCancelsAnyStatus | backend/orders/views.py:396-401 | a customer may cancel their own order in any status, and past the kitchen that gives no stock back |
| OrderRules.SetStatusRestocksOnce | backend/orders/views.py:419 | setting CANCELED on a CANCELED order restocks nothing |
| OrderRules.PickupDecision | backend/orders/views.py:1039-1063 | a pickup succeeds exactly on a READY_FOR_PICKUP or PENDING order nobody holds; a taken order held by someone else gives ORDER_ALREADY_TAKEN |
| OrderRules.PickedUpOrder | backend/orders/views.py:1065-1067 | a picked-up order belongs to the caller and is DELIVERING, nothing else changes |
| OrderRules.CompleteDecision | backend/orders/views.py:1086-1098 | a completion succeeds exactly on the caller's own order while DELIVERING |
| OrderRules.CompletedOrder | backend/orders/views.py:1101-1102 | a completed order is DELIVERED, nothing else changes |
| OrderRules.PickupThenComplete | backend/orders/views.py:1039-1102 | after a pickup only that shipper can complete the order, another gets 404, and a second pickup is refused |
| OrderRules.AvailableCanBePickedUp | backend/orders/models.py:104-114 | every order available to shippers can be picked up |
| OrderRules.AdjustedStockBounds | backend/orders/views.py:1484-1489 | only IN can leave stock negative, and only when it was; OUT never raises stock, IN never lowers it, ADJUST ignores the old stock |
| OrderRules.AdjustInOut | backend/orders/views.py:1484-1487 | OUT undoes IN on a non-negative stock, and IN undoes OUT when there was enough stock |
| OrderRules.LineIndex | backend/orders/views.py:1571 | the line found is the one with the requested primary key, and none is found only when no line has it |
| OrderRules.SubstituteLine | backend/orders/views.py:1567-1581 | a substitution keeps the number of lines |
| OrderRules.ReduceLine | backend/orders/views.py:1586-1595 | a reduction aborts exactly when its quantity is not an integer, and keeps the number of lines otherwise |
| OrderRules.SubstituteAllConsistent | backend/orders/views.py:1567-1581 | substitutions keep every line total equal to price times quantity and leave quantities alone |
| OrderRules.ReduceAllConsistent | backend/orders/views.py:1586-1595 | reductions keep every line total equal to price times quantity and keep quantities at least 1 |
| OrderRules.ReduceAllCrash | backend/orders/views.py:1588 | the reductions abort exactly when one of them carries a non-integer quantity |
| OrderRules.OutOfStockReprices | backend/orders/views.py:1609-1612 | after any action but CANCEL, the total is the sum of price times quantity over the lines, and only lines and total change |
| OrderRules.OutOfStockCancelKeepsStockTaken | backend/orders/views.py:1597-1607 | CANCEL for lack of stock gives no stock back, and the customer's own cancel is then refused |
| OrderRules.RefundAmount | backend/orders/views.py:1654-1660 | the refund is the whole total by default and never more than the total |
| OrderRules.RefundDecision | backend/orders/views.py:1648-1669 | a refund goes through exactly on a PAID order with a valid amount, for at most the total |
| OrderRules.RefundOnce | backend/orders/views.py:1662-1667 | a partial refund marks the order REFUNDED like a full one, so a second refund is refused |
| OrderRules.ResolveShipperPos | backend/orders/views.py:625-645 | the query's position is used when both coordinates are given, else a shipper profile's stored one when both are non-zero |
| OrderRules.ListEntry | backend/orders/views.py:658-701 | an order gets an entry exactly when there is no shipper position, or its store has no coordinates, or the store is within the radius; the entry names the order and carries a distance exactly when both positions are known, and that distance is the store's and within the radius |
| OrderRules.Candidates | backend/orders/views.py:649-701 | only queued waiting orders are listed, and a listed distance is within the radius |
| OrderRules.QueueEntry | backend/orders/views.py:658-701 | an order id gets an entry exactly when it is a waiting order within reach, and the entry names that order, within the radius when a distance was computed |
| OrderRules.ShipperOrdersFacts | backend/orders/views.py:703-706 | the shipper list holds waiting orders within the radius, sorted by distance with missing distances last, ties kept in the loop's order |
| OrderRules.CandidatesEntries | backend/orders/views.py:658-701 | an order has an entry before the sort exactly when it is queued and its loop decision is an entry, and every entry is that decision |
| OrderRules.ShipperListMembers | backend/orders/views.py:703-706 | the same holds after the sort, which neither adds nor drops an entry |
| OrderRules.CandidatesInQueueOrder | backend/orders/views.py:652-701 | fed distinct ids newest first, the loop lists each order at most once and keeps newest first |
| OrderRules.WithKeyNewestFirst | backend/orders/views.py:703-706 | picking the entries at one distance keeps newest-first order and picks only entries of the list |
| OrderRules.SortedDistinct | backend/orders/views.py:703-706 | sorting entries with distinct order ids keeps the ids distinct |
| OrderRules.ShipperListTable | backend/orders/views.py:649-706 | over the whole order table: an order is listed exactly when it is waiting and within reach, no order twice, and orders at equal distance (or all without one) newest first |
| OrderRules.NoPositionListsAllWaiting | backend/orders/views.py:649-700 | without a shipper position every waiting order of the table is listed, without a distance |
| Checkout.CheckoutRowTracks | backend/orders/views.py:238-340 | one basket row keeps the relation between the table before checkout and the progress: stock down by exactly what the lines took, touched dishes available iff stock is left |
| Checkout.RunRowsTracks | backend/orders/views.py:238-340 | the whole basket loop keeps that relation |
| Checkout.CheckoutAccepted | backend/orders/views.py:173-362 | a successful checkout comes from a customer or admin for an active store; each dish's stock drops by exactly the quantity ordered, an ordered dish is available iff stock is left, an unordered one is untouched, and the total is the sum of price times quantity |
| Checkout.RunRowsErrorsGrow | backend/orders/views.py:234-281 | the loop never forgets a stock error it recorded |
| Checkout.RunRowsRecordsRowError | backend/orders/views.py:242-281 | a row that records an error leaves the loop with an error, unless an abort came first |
| Checkout.CheckoutRejectsMissingId | backend/orders/views.py:242-351 | a basket row without a dish id makes the whole checkout fail with no order and no stock moved |
| Checkout.CheckoutRejectsShortStock | backend/orders/views.py:271-351 | in a successful checkout every row asked for no more than the stock left at that point |
| Checkout.PrefixThenRow | backend/orders/views.py:238-340 | when the whole loop succeeds, no single row aborted |
| OrderEngine.Marketplace.constructor | backend/orders/models.py:11-114 | the tables start with the given stores, members and dishes and no orders |
| OrderEngine.Marketplace.PlacedOrder | backend/orders/views.py:209-356 | the committed order is PENDING and UNPAID with no shipper, the caller's, holding the loop's lines and total |
| OrderEngine.Marketplace.Create | backend/orders/views.py:173-362 | a refused checkout leaves dishes and orders as they were; an accepted one stores one new order and leaves the dish table as the basket loop left it |
| OrderEngine.Marketplace.RestockLines | backend/orders/views.py:420-427 | the in-place restock loop leaves the dish table as the restock function says and counts the lines and quantities it gave back |
| OrderEngine.Marketplace.Cancel | backend/orders/views.py:437-480 | the answer is the cancel decision; on success the order is cancelled and its lines restocked, otherwise nothing changes |
| OrderEngine.Marketplace.SetStatus | backend/orders/views.py:374-432 | the answer is the status decision; on success the status is stored, and stock is given back only when cancelling from PENDING or CONFIRMED |
| OrderEngine.Marketplace.Pickup | backend/orders/views.py:1023-1070 | the answer is the pickup decision; on success the order is the caller's and DELIVERING, otherwise nothing changes |
| OrderEngine.Marketplace.Complete | backend/orders/views.py:1083-1102 | the answer is the completion decision; on success the order is DELIVERED, otherwise nothing changes |
| OrderEngine.Marketplace.AdjustStock | backend/orders/views.py:1454-1498 | forbidden and missing dishes change nothing, a non-integer quantity crashes without change, otherwise only that dish's stock is rewritten by the IN/OUT/ADJUST rule |
| OrderEngine.Marketplace.HandleOutOfStock | backend/orders/views.py:1529-1618 | after the access gate, the order becomes what the out-of-stock function gives, and an aborted request changes nothing |
| OrderEngine.Marketplace.Refund | backend/orders/views.py:1621-1676 | after the access gate, the answer is the refund decision and a refund only marks the order REFUNDED |
| OrderEngine.Marketplace.ShipperEntry | backend/orders/views.py:658-701 | one loop iteration computes the entry function's value for that order |
| OrderEngine.Marketplace.ShipperList | backend/orders/views.py:606-706 | the list is the sorted candidates for the resolved position, with radius 20 by default; over the whole order table it names exactly the waiting orders within reach, none twice |
| OrderEngine.CheckoutThenCancel | backend/orders/views.py:173-480 | checkout followed by the customer's cancel gives every dish its stock back |
| RestoreStock.CanceledLinesQty | backend/restore_stock_for_canceled_orders.py:25-39 | the quantity of a dish over the cancelled orders' lines is the order-by-order sum |
| RestoreStock.CanceledIds | backend/restore_stock_for_canceled_orders.py:25 | an id is selected exactly when its order is CANCELED |
| RestoreStock.CanceledQtyTotal | backend/restore_stock_for_canceled_orders.py:34-39 | over distinct ids, the order-by-order sum equals the total over the set of those ids |
| RestoreStock.RestoreStockEffect | backend/restore_stock_for_canceled_orders.py:25-45 | given the query's rows, each dish gains exactly the quantity that all CANCELED orders of the table hold of it, other orders play no part, and its flag is only ever set |
| RestoreStock.CancelThenRestoreCountsTwice | backend/restore_stock_for_canceled_orders.py:25-39 | an order already restocked by cancel is restocked again by the script, counting its quantities twice |
| RestoreStock.RestoreCanceled | backend/restore_stock_for_canceled_orders.py:16-52 | the batch loop leaves the dish table as the restock of the cancelled orders' lines, with the restored count and total quantity, and changes no order; given the query's rows, each dish's stock grows by exactly what all CANCELED orders of the table hold of it |
| RestoreStock.BatchStep | backend/restore_stock_for_canceled_orders.py:34-52 | one more order adds its lines, its restock and its counts to what was done before |
| MenuModel.NewMerchant | backend/menus/models.py:13-22 | a new store has no coordinates and is active |
| MenuModel.NewMenuItem | backend/menus/models.py:75-84 | a new dish has stock 0, is available and has no description |
| MenuModel.AddMember | backend/menus/models.py:38-48 | a second membership of the same user in the same store is refused; otherwise exactly that row is added |
| MenuModel.AddCategory | backend/menus/models.py:56-67 | a section is refused exactly when its store already has one of that name |
| MenuModel.AddCategoryKeepsUnique | backend/menus/models.py:67 | every accepted insert keeps section names unique per store |
| Params.FloatOr | backend/menus/views.py:29-32 | a parameter that is not a number reads as the default |
| Params.IntOr | backend/orders/views.py:1481 | an absent field reads as the default, an integer as itself, and anything else raises |
| MenuViews.ReadCustomerPos | backend/menus/views.py:27-47 | a missing or empty coordinate gives one 400, a non-numeric one the other, and two numbers a position |
| MenuViews.RadiusOf | backend/menus/views.py:29-32 | the radius is the number given, else 10 |
| MenuViews.StoreEntry | backend/menus/views.py:58-74 | a store is kept exactly when it is active, has both coordinates and lies within the radius, with its computed distance |
| MenuViews.InRangeMembers | backend/menus/views.py:50-74 | the unsorted list holds exactly the located stores within the radius, with their distances |
| MenuViews.StoresInRange | backend/menus/views.py:57-74 | the store loop builds exactly that list |
| MenuViews.MerchantsNearby | backend/menus/views.py:18-92 | the store endpoint answers as its reference function |
| MenuViews.MerchantsNearbyFacts | backend/menus/views.py:27-92 | 400 exactly when a coordinate is missing or not a number; otherwise exactly the located stores within the radius, nearest first, ties in query order |
| MenuViews.Ids | backend/menus/views.py:203 | the ids of the listed stores, in order |
| MenuViews.DistanceMapFacts | backend/menus/views.py:211 | the distance map has a key for each listed store, with a distance listed for it |
| MenuViews.DishEntry | backend/menus/views.py:204-208 | a dish is kept exactly when it is available and its store is in range |
| MenuViews.DishesMembers | backend/menus/views.py:204-220 | the unsorted dishes are exactly the available dishes of stores in range, each with its store's distance (or 0) rounded to two places |
| MenuViews.DishesInRange | backend/menus/views.py:204-220 | the dish loop builds exactly that list |
| MenuViews.MenuNearby | backend/menus/views.py:136-236 | the dish endpoint answers as its reference function |
| MenuViews.MenuNearbyFacts | backend/menus/views.py:145-236 | 400 exactly for bad coordinates; the no-store message exactly when no store is in range; otherwise exactly the available dishes of in-range stores, each with its store's rounded distance, in increasing rounded distance |
| MenuViews.VisibleItemsMembers | backend/menus/views.py:99-127 | staff see every dish of the stores they own or belong to, hidden ones included, and nothing with no store; everyone else sees exactly the available dishes |
| Accounts.NewProfile | backend/accounts/models.py:26-31 | a new profile has the given role and no store fields |
| Accounts.RoleFlags | backend/accounts/models.py:106-120 | at most one of the four role predicates holds, exactly one for the four roles, and the default profile is a customer's |
| Accounts.NormalizeIdempotent | backend/accounts/views.py:57 | stripping and lower-casing an identifier twice is doing it once |
| Accounts.NewOtp | backend/accounts/models.py:149-168 | a new OTP is unused and for registration by default |
| Accounts.MarkedUsed | backend/accounts/models.py:173-178 | after mark_used an OTP is never valid, whatever the time, and nothing else about it changes |
| Accounts.GenerateOtpCode | backend/accounts/views.py:45-47 | the code has one character per draw, each a decimal digit |
| Accounts.EveryCodeReachable | backend/accounts/views.py:45-47 | every string of decimal digits can be generated |
| Accounts.Cleaned | backend/accounts/views.py:59-64 | the clean-up marks used exactly the identifier's unused, expired rows |
| Accounts.CleanedFacts | backend/accounts/views.py:59-64 | the clean-up changes no row's validity, leaves no stale row of the identifier, and leaves other identifiers and unexpired rows untouched |
| Accounts.LatestIn | backend/accounts/serializers.py:194-201 | the row found is unused and matches the identifier and code |
| Accounts.LatestInFacts | backend/accounts/serializers.py:194-203 | nothing is found exactly when no row matches; the row found was created no earlier than any other match |
| Accounts.RedeemOtp | backend/accounts/serializers.py:192-339 | the OTP is refused as unknown exactly when no unused row matches, as expired only when a match has expired, and accepted only when the match is valid |
| Accounts.RedeemedOnlyOnce | backend/accounts/serializers.py:234-361 | once redeemed and marked used, the same identifier and code no longer reach that OTP |
| Accounts.RequestThenRedeem | backend/accounts/views.py:50-72 | asking for an OTP and then presenting its code with the same e-mail, in any case and spacing, before expiry redeems it |
| Accounts.RedeemAfterExpiry | backend/accounts/models.py:173-174 | a code presented at or after its expiry is refused as expired |
| Accounts.RegisterErrors | backend/accounts/serializers.py:44-55 | both clashes are reported together: a non-empty stripped username taken in any case, and a non-empty normalised e-mail taken in any case |
| Accounts.MerchantRejection | backend/accounts/serializers.py:88-111 | each rejection names a failed check: missing credentials exactly when an anonymous caller leaves one out, a taken username or e-mail, or a store name in use |
| Accounts.MerchantAccepted | backend/accounts/serializers.py:88-111 | a registration passes exactly when the store name is free in any case and an anonymous caller gives credentials with a free username and an unused e-mail |
| Accounts.PromotedProfile | backend/accounts/serializers.py:129-136 | the profile becomes a merchant's with the store's name and address, unless it already was a merchant's, which is kept |
| Accounts.AccountStore.constructor | backend/accounts/models.py:123-178 | the tables start empty |
| Accounts.AccountStore.MarkUsed | backend/accounts/models.py:176-178 | only that OTP changes, and it is never valid again |
| Accounts.AccountStore.CreateOtp | backend/accounts/views.py:50-91 | the table is the cleaned table plus one fresh OTP expiring ttl minutes from now; in debug mode nothing is sent and the code is returned |
| Accounts.AccountStore.ForgotPassword | backend/accounts/views.py:235-258 | an OTP is created only for a non-empty e-mail some user has, ignoring case, expiring 5 minutes later; otherwise nothing changes |
| Accounts.AccountStore.Register | backend/accounts/serializers.py:34-66 | a blank username or password, or a given e-mail that is not an address, refuses with nothing changed; a clash refuses with both errors; otherwise the user is stored active with the trimmed username, e-mail and password, both non-blank, and a customer profile |
| Accounts.AccountStore.ConfirmRegister | backend/accounts/serializers.py:175-246 | a bad field (e-mail, an OTP blank or over 8 characters, a password under 6, a role outside the four choices) refuses with nothing changed; otherwise the latest OTP matching the trimmed code is redeemed, the user is created with the e-mail as username, the trimmed password of at least 6 characters and the chosen role (customer by default), and the OTP is marked used; a failure changes nothing |
| Accounts.AccountStore.ResetPassword | backend/accounts/serializers.py:316-363 | a bad field (e-mail, an OTP blank or over 8 characters, a new password under 6) refuses with nothing changed; otherwise the latest OTP matching the trimmed code is redeemed, a user with exactly that e-mail gets the trimmed new password and the OTP is marked used; a failure changes nothing |
| Accounts.AccountStore.Login | backend/accounts/serializers.py:252-266 | a missing or malformed e-mail or an empty password is refused before any lookup; otherwise login succeeds exactly for an active user whose username is the normalised e-mail and whose password matches untrimmed |
| Accounts.AccountStore.RegisterMerchant | backend/accounts/serializers.py:72-150 | a blank store name or a given e-mail that is not an address refuses with nothing changed; the checks and the new rows use the trimmed username, password, name, address and phone; a rejection changes nothing; otherwise the caller or a new user is promoted, owns the new active store and is its owner member |
| Accounts.AccountStore.AddUser | backend/accounts/serializers.py:59-63 | the user is stored under the next id |
| Accounts.AccountStore.SetProfile | backend/accounts/serializers.py:65 | only that user's profile changes |
| Accounts.RegisterTwice | backend/accounts/serializers.py:49-50 | registering the same username twice, in any case, refuses the second as taken |
| Accounts.RegisterStoreTwice | backend/accounts/serializers.py:108-109 | a second store with the name of an existing one, in any case, is refused |
| MenuSeeding.GetMenuType | backend/create_menu_items.py:65-77 | the type is Bun exactly when the lower-cased name contains "bún", and Default exactly when it contains none of the four keywords |
| MenuSeeding.GetMenuTypeIsFirstKeyword | backend/create_menu_items.py:67-77 | the classifier equals reading the keyword table in priority order over the lower-cased name |
| MenuSeeding.GetMenuTypeIgnoresCase | backend/create_menu_items.py:67 | a name and its lower-cased form get the same menu type |
| MenuSeeding.Menu | backend/create_menu_items.py:17-55 | every menu template has at least three dishes |
| MenuSeeding.MenuWellFormed | backend/create_menu_items.py:17-55 | no template lists a dish name twice, and every dish has positive price and stock |
| MenuSeeding.ItemOf | backend/create_menu_items.py:97-105 | the created row belongs to the store and copies name, description, price and stock, and is available |
| MenuSeeding.RowsForFacts | backend/create_menu_items.py:88-106 | a store gets between min(5, n) and min(8, n) dishes of its own template, with distinct names, each copied from the template |
| MenuSeeding.BuildRows | backend/create_menu_items.py:95-106 | the loop builds exactly the rows of the sampled dishes, in sample order |
| MenuSeeding.SeededRows | backend/create_menu_items.py:84-106 | every created dish belongs to an active store, is available and is a dish of that store's template |
| MenuSeeding.SeededComplete | backend/create_menu_items.py:87-109 | every sampled dish of every active store is created |
| MenuSeeding.AddRowsFacts | backend/create_menu_items.py:109 | a bulk insert keeps the old rows and adds the new ones under consecutive fresh keys |
| MenuSeeding.AddRowsAppend | backend/create_menu_items.py:109 | inserting a + b equals inserting a, then b under the following keys |
| MenuSeeding.BulkCreate | backend/create_menu_items.py:109 | only the dish table changes, by the bulk insert of the rows |
| MenuSeeding.CountRows | backend/create_menu_items.py:95-106 | the rows built for one store all belong to it, one per sampled dish |
| MenuSeeding.CountSeededAt | backend/create_menu_items.py:87-109 | with every store queued once, a store the loop has passed holds exactly the rows of its own sample, and none before |
| MenuSeeding.CountSeededAbsent | backend/create_menu_items.py:84-109 | a store that is not queued gets no rows |
| MenuSeeding.SeedingTable | backend/create_menu_items.py:84-109 | given the query's rows (every active store once), every active store gets between min(5, n) and min(8, n) dishes of its own template, every inactive store none, and every new dish is available |
| MenuSeeding.SeedStoresInTurn | backend/create_menu_items.py:87-110 | the loop's dish table gains exactly the seeded rows under the following keys, and the total is their number |
| MenuSeeding.CreateMenuItems | backend/create_menu_items.py:79-110 | the dish table gains exactly the seeded rows, the rest is unchanged, the returned total is their number, and store by store the active ones get between min(5, n) and min(8, n) dishes and the others none |
| MenuSeeding.CreateMenuItemsEffect | backend/create_menu_items.py:79-110 | after the run the old dishes are unchanged and every new dish is available and belongs to an active store |
| ExportAccounts.RegionAsWrittenIsRegionOf | backend/export_merchant_accounts.py:27-48 | the loop's chain of tests picks the same region as the three-way rule (Đồng Nai signs, else Bình Dương signs, else Ho Chi Minh City) |
| ExportAccounts.InRegion | backend/export_merchant_accounts.py:27-48 | a region's list is no longer than the queue |
| ExportAccounts.PartitionCount | backend/export_merchant_accounts.py:27-115 | the three region lists together are exactly as long as the queue, so the printed grand total counts every store once |
| ExportAccounts.StoresCounted | backend/export_merchant_accounts.py:20-115 | given the query's rows (every store once, by id), the three region lists together hold exactly as many entries as there are stores |
| ExportAccounts.InRegionMembers | backend/export_merchant_accounts.py:27-48 | a region's list holds exactly the queued stores of that region |
| ExportAccounts.InRegionIncreasing | backend/export_merchant_accounts.py:20 | ordered by id, each region's list stays in increasing id order |
| ExportAccounts.Classify | backend/export_merchant_accounts.py:23-48 | the loop's three lists are the region lists of the queue |
| ExportAccounts.Rule | backend/export_merchant_accounts.py:53 | a rule line is 80 copies of its character |
| ExportAccounts.OrNA | backend/export_merchant_accounts.py:70-71 | the shown value is never empty, and a non-empty value is shown as is |
| ExportAccounts.EntryLines | backend/export_merchant_accounts.py:65-75 | an entry starts with its numbered head line and ends with a blank line |
| ExportAccounts.EntriesNumbered | backend/export_merchant_accounts.py:64 | the i-th store of the list is listed under number i + 1 |
| ExportAccounts.EntriesLength | backend/export_merchant_accounts.py:64-75 | an entry takes seven lines with an owner account and two without |
| ExportAccounts.Owned | backend/export_merchant_accounts.py:65 | the owned count is at most the list's length |
| ExportAccounts.FileLinesFacts | backend/export_merchant_accounts.py:51-86 | the file's title names the region in upper case, its fifth line gives the store count, and it ends with the usage notes |
| ExportAccounts.EntriesStep | backend/export_merchant_accounts.py:64-75 | the entries of one more store are the earlier entries followed by its block |
| ExportAccounts.AppendEntry | backend/export_merchant_accounts.py:65-75 | the appended block is the store's entry lines |
| ExportAccounts.CreateFileContent | backend/export_merchant_accounts.py:51-86 | the text is the header, entries and footer joined with newlines |
| ExportAccounts.InRegionInMerchants | backend/export_merchant_accounts.py:27-48 | every id in a region's list is a known store |
| ExportAccounts.InRegionNonEmpty | backend/export_merchant_accounts.py:89-103 | a region's list is non-empty exactly when some queued store lies in that region |
| ExportAccounts.RegionFileNames | backend/export_merchant_accounts.py:89-93 | a region's output holds a file of a given name exactly when it is the region's file and the list is non-empty |
| ExportAccounts.HasFileAppend | backend/export_merchant_accounts.py:88-107 | a file is among a + b exactly when it is among a or among b |
| ExportAccounts.WrittenFile | backend/export_merchant_accounts.py:20-107 | given the query's rows, a region's file is written exactly when some store of the table lies in that region |
| ExportAccounts.WriteRegion | backend/export_merchant_accounts.py:89-93 | the method writes exactly the region's file, or nothing for an empty list |
| ExportAccounts.ExportMerchantAccounts | backend/export_merchant_accounts.py:17-116 | the written files are those of the non-empty regions in order, a region's file is written exactly when some store of the table lies in it, and the printed total equals the number of stores in the table |
| MerchantAccounts.Replaced | backend/create_merchant_accounts.py:110 | the result has the same length, with every occurrence of the letter replaced and every other character kept |
| MerchantAccounts.ApplyPairsFacts | backend/create_merchant_accounts.py:100-110 | after the replacement passes none of the replaced letters is left, and a character none of them names comes through unchanged |
| MerchantAccounts.Unaccent | backend/create_merchant_accounts.py:109-110 | the text keeps its length and each character is what the replacement passes make of it |
| MerchantAccounts.KeepAlnum | backend/create_merchant_accounts.py:113 | the result is no longer than the input and holds only letters and digits taken from it |
| MerchantAccounts.VietnameseMapToAscii | backend/create_merchant_accounts.py:100-108 | the replacement table maps accented letters to plain ASCII letters |
| MerchantAccounts.UnaccentChars | backend/create_merchant_accounts.py:109-110 | no replaced accented letter survives the replacement passes |
| MerchantAccounts.FallbackChars | backend/create_merchant_accounts.py:114-115 | the `merchant<id>` fall-back is made of letters and digits |
| MerchantAccounts.BaseNameFacts | backend/create_merchant_accounts.py:98-115 | a base name is never empty, holds only letters and digits and no replaced letter, and is at most 15 characters unless it is the fall-back |
| MerchantAccounts.ComputeBaseName | backend/create_merchant_accounts.py:98-115 | the step-by-step computation (lower-case, one pass per letter, filter, cut) gives the base name |
| MerchantAccounts.AccountNameDeterminesId | backend/create_merchant_accounts.py:117 | two stores with different ids never derive the same username |
| MerchantAccounts.DigitsBeforeUnderscore | backend/create_merchant_accounts.py:117 | digits between a fixed prefix and an underscore are read back unambiguously |
| MerchantAccounts.CandidateInjective | backend/create_merchant_accounts.py:122-127 | different attempts of the collision loop try different usernames |
| MerchantAccounts.CandidatesBound | backend/create_merchant_accounts.py:124-127 | the loop can find at most as many taken candidates as there are usernames, so it ends |
| MerchantAccounts.TriedNames | backend/create_merchant_accounts.py:124-127 | the first k candidates form a set of exactly k names |
| MerchantAccounts.SubsetCard | backend/create_merchant_accounts.py:124-127 | a subset is no larger than its superset |
| MerchantAccounts.FirstFree | backend/create_merchant_accounts.py:122-127 | the chosen candidate is free and every earlier one is taken |
| MerchantAccounts.FirstFreeUnique | backend/create_merchant_accounts.py:122-127 | the first free candidate is unique |
| MerchantAccounts.FreeUsername | backend/create_merchant_accounts.py:121-127 | the loop returns the first free candidate, which no user has |
| MerchantAccounts.OwnerProfile | backend/create_merchant_accounts.py:58-79 | the owner ends with a merchant profile; an existing merchant profile is left alone, otherwise it carries the store's name and address |
| MerchantAccounts.FixStore | backend/create_merchant_accounts.py:49-161 | one store keeps every owner a known user and the store set unchanged, and counts at most one creation or update |
| MerchantAccounts.FixAll | backend/create_merchant_accounts.py:46-163 | the loop keeps owners known and the store set unchanged, and created plus updated is at most the number of queued stores |
| MerchantAccounts.FixStoreSettles | backend/create_merchant_accounts.py:49-161 | after its turn a store is settled: its owner is a known user other than the shared account, a merchant and a member of the store |
| MerchantAccounts.FixStoreKeepsSettled | backend/create_merchant_accounts.py:49-161 | one store's turn leaves every settled store settled |
| MerchantAccounts.FixAllSettles | backend/create_merchant_accounts.py:46-163 | after the loop every queued store is settled |
| MerchantAccounts.SettledRunIsIdle | backend/create_merchant_accounts.py:46-163 | the loop over settled stores changes nothing and counts nothing |
| MerchantAccounts.StoreQueueLength | backend/create_merchant_accounts.py:33 | a query yielding every store once yields as many rows as there are stores |
| MerchantAccounts.FixAllTable | backend/create_merchant_accounts.py:33-163 | given the query's rows, after the loop every store of the table is settled, created plus updated is at most the number of stores, and a second run changes and counts nothing |
| MerchantAccounts.FixStoresInTurn | backend/create_merchant_accounts.py:46-163 | the loop's tables and counters become those of the whole loop over the queue |
| MerchantAccounts.RealOwnerKept | backend/create_merchant_accounts.py:53-89 | a store with a real owner keeps it, that owner ends a merchant and a member of the store, and no account is created |
| MerchantAccounts.SharedOwnerReplaced | backend/create_merchant_accounts.py:90-161 | a store of the shared account gets a fresh, unused username derived from the store, its email at the script's domain, a merchant profile, ownership and the owner membership |
| MerchantAccounts.SecondRunCreatesNothing | backend/create_merchant_accounts.py:49-161 | running the script again on a fixed store changes nothing and counts nothing |
| MerchantAccounts.FixedStoreKept | backend/create_merchant_accounts.py:53-89 | a store whose real owner is already a merchant and the store's member is left exactly as it is, with nothing counted |
| MerchantAccounts.AccountNamePrefix | backend/create_merchant_accounts.py:117-127 | a generated username is never the shared account's name |
| MerchantAccounts.FixMerchant | backend/create_merchant_accounts.py:50-161 | the stores, users, profiles and members become those of the one-store fix, and nothing else changes |
| MerchantAccounts.CreateMerchantAccounts | backend/create_merchant_accounts.py:25-168 | the tables and both counters become those of the whole loop, every store of the table ends settled, created plus updated is at most the number of stores, the account store stays valid and nothing else changes |
| ClientCart.OrElse | frontend/src/pages/CustomerApp.tsx:78 | a present non-empty string is kept; a missing or empty one gives the fallback |
| ClientCart.SubtotalAppend | frontend/src/pages/Cart.tsx:233-236 | the subtotal of two carts joined is the sum of their subtotals |
| ClientCart.SubtotalReplace | frontend/src/pages/Cart.tsx:233-236 | replacing one entry moves the subtotal by the difference of the two entries' amounts |
| ClientCart.SubtotalNonNegative | frontend/src/pages/Cart.tsx:233-236 | a cart of non-negative prices and quantities has a non-negative subtotal |
| ClientCart.CartSummary | frontend/src/pages/Cart.tsx:28-247 | the fee applies to any non-zero subtotal, the discount to one above 200000, and the total is fee-adjusted subtotal clamped at 0 |
| ClientCart.SummaryOfPricedCart | frontend/src/pages/Cart.tsx:171-247 | for a cart of non-negative prices the clamp never bites, the total is zero exactly for an empty subtotal (so the button is disabled exactly then), and otherwise exceeds the subtotal |
| ClientCart.UpdateQuantity | frontend/src/pages/Cart.tsx:250-259 | every entry with the id gets the new quantity and every other entry is unchanged |
| ClientCart.RemoveItemMembers | frontend/src/pages/Cart.tsx:261-268 | removal keeps exactly the entries with another id |
| ClientCart.SubtotalSplit | frontend/src/pages/Cart.tsx:261-268 | the subtotal is what the removal keeps plus what it drops |
| ClientCart.RemoveItemIdempotent | frontend/src/pages/Cart.tsx:261-268 | removing the same id twice is removing it once |
| ClientCart.RemoveAfterUpdate | frontend/src/pages/Cart.tsx:250-268 | removing an entry undoes any quantity change made to it |
| ClientCart.UpdateQuantityIdempotent | frontend/src/pages/Cart.tsx:250-259 | setting the same quantity twice is setting it once |
| ClientCart.UpdateQuantitySubtotal | frontend/src/pages/Cart.tsx:233-259 | with unique ids, setting one entry's quantity moves the subtotal by its price times the change |
| ClientCart.Distribute | frontend/src/pages/Cart.tsx:233-236 | multiplication distributes over the quantity change |
| ClientCart.UpdateQuantityKeepsUnique | frontend/src/pages/Cart.tsx:250-259 | a quantity change keeps ids unique |
| ClientCart.RemoveItemKeepsUnique | frontend/src/pages/Cart.tsx:261-268 | a removal keeps ids unique |
| ClientCart.QuantityChangeKeepsPositive | frontend/src/pages/Cart.tsx:52-61 | the plus and minus buttons never leave an entry with a quantity below 1 |
| ClientCart.MinusOnOneRemoves | frontend/src/pages/Cart.tsx:52-61 | pressing minus on an entry of quantity 1 removes every entry with its id |
| ClientCart.HandleCheckout | frontend/src/pages/Cart.tsx:270-278 | the page warns instead of moving on exactly when the cart is empty |
| ClientCart.FirstIndexOf | frontend/src/pages/CustomerApp.tsx:64 | the index is -1 or an entry with the id, and no earlier entry has the id |
| ClientCart.AddedFacts | frontend/src/pages/CustomerApp.tsx:60-83 | adding raises the subtotal by one unit of the matching entry or by the new entry's amount, adds the id to the cart's ids, and keeps ids unique |
| ClientCart.ReplaceIds | frontend/src/pages/CustomerApp.tsx:64-69 | replacing an entry by one with the same id keeps the ids |
| ClientCart.AddedLength | frontend/src/pages/CustomerApp.tsx:64-82 | the cart grows by one exactly when the id was not yet in it |
| ClientCart.CartStorage.constructor | frontend/src/pages/CustomerApp.tsx:60-61 | an absent cart key reads as the empty cart |
| ClientCart.CartStorage.Add | frontend/src/pages/CustomerApp.tsx:60-83 | the stored cart becomes the cart with the entry added |
| CustomerApp.ToProduct | frontend/src/pages/CustomerApp.tsx:207-216 | id, name, price, merchant id and distance are copied and the store name is never empty |
| CustomerApp.ToProducts | frontend/src/pages/CustomerApp.tsx:207-216 | every dish is mapped to its product, in order |
| CustomerApp.ProductsFacts | frontend/src/pages/CustomerApp.tsx:205-224 | the list is sorted by distance with missing distances last, is a permutation of the listed dishes' products, and keeps the response order among equal distances |
| CustomerApp.ProductsMembers | frontend/src/pages/CustomerApp.tsx:206 | a product is shown exactly when it comes from a dish not marked unavailable |
| CustomerApp.FetchProducts | frontend/src/pages/CustomerApp.tsx:143-233 | nothing is shown signed out or without a location, and otherwise exactly the sorted products of a successful reply |
| CustomerApp.SearchMembers | frontend/src/pages/CustomerApp.tsx:253-257 | a product is kept exactly when the term occurs, ignoring case, in its name, description or store name |
| CustomerApp.SearchEmptyTerm | frontend/src/pages/CustomerApp.tsx:253-257 | an empty search box shows every product |
| CustomerApp.SearchIgnoresCase | frontend/src/pages/CustomerApp.tsx:253-257 | the case of the term does not matter |
| CustomerApp.ProductEntry | frontend/src/pages/CustomerApp.tsx:71-80 | the added entry is one unit of the product at its price, carrying its merchant id |
| CustomerApp.AddToCart | frontend/src/pages/CustomerApp.tsx:49-85 | signed out the stored cart is unchanged; signed in it gains the product |
| CustomerApp.AddProductEffect | frontend/src/pages/CustomerApp.tsx:64-82 | a product not in the cart is appended with quantity 1; one already there keeps the cart's length |
| RestaurantDetail.FilteredMembers | frontend/src/pages/RestaurantDetail.tsx:104-107 | a dish is kept exactly when the term occurs, ignoring case, in its name or description |
| RestaurantDetail.FilteredEmptyTerm | frontend/src/pages/RestaurantDetail.tsx:104-107 | an empty search box shows the whole menu, dishes without a description included |
| RestaurantDetail.NoDescriptionNameOnly | frontend/src/pages/RestaurantDetail.tsx:106 | a dish without a description is found only through its name |
| RestaurantDetail.MenuEntry | frontend/src/pages/RestaurantDetail.tsx:89-97 | the added entry is one unit at the dish's price with no merchant id, under "Unknown" exactly when the restaurant name is missing, empty or "Unknown" |
| RestaurantDetail.AddToCart | frontend/src/pages/RestaurantDetail.tsx:70-102 | signed out the stored cart is unchanged; signed in it gains the dish |
| RestaurantDetail.AddMenuItemEffect | frontend/src/pages/RestaurantDetail.tsx:82-98 | a new dish becomes the last entry, with no merchant id; an existing one keeps the length and every entry's merchant id |
| CheckoutPage.CheckoutSummary | frontend/src/pages/Checkout.tsx:129-132 | the same subtotal, fee and discount as the cart page, with the total left unclamped |
| CheckoutPage.SummariesAgree | frontend/src/pages/Checkout.tsx:129-132 | the two pages show the same total exactly when it is not negative, which always holds for a cart of non-negative prices |
| CheckoutPage.Check | frontend/src/pages/Checkout.tsx:162-208 | a known merchant is kept, and an accepted entry names an available dish with enough stock of the settled merchant |
| CheckoutPage.ValidationPartitions | frontend/src/pages/Checkout.tsx:158-209 | every cart entry lands in exactly one of the accepted and rejected lists |
| CheckoutPage.NothingRejected | frontend/src/pages/Checkout.tsx:158-209 | with nothing rejected, the accepted list is the whole cart in order |
| CheckoutPage.MerchantSticky | frontend/src/pages/Checkout.tsx:155-174 | a merchant id known from the first entry is never replaced |
| CheckoutPage.AcceptedAreSound | frontend/src/pages/Checkout.tsx:161-209 | every accepted entry names an available dish with enough stock, of the store the loop settled on |
| CheckoutPage.ValidateCart | frontend/src/pages/Checkout.tsx:155-209 | the loop's two lists and merchant are those of the validation |
| CheckoutPage.MissingItemRoundTrip | frontend/src/pages/Checkout.tsx:281-284 | the page reads back from the backend's missing-dish message exactly the id it names |
| CheckoutPage.Lines | frontend/src/pages/Checkout.tsx:240-243 | one order line per entry, in order, with its id and quantity |
| CheckoutPage.PlaceOrderGuards | frontend/src/pages/Checkout.tsx:136-149 | while busy, with a blank address or an empty cart, nothing is sent and the cart is unchanged |
| CheckoutPage.RejectionKeepsAccepted | frontend/src/pages/Checkout.tsx:212-229 | with any entry rejected no order is sent, the cart keeps the accepted entries, and the stored key is removed exactly when none is left |
| CheckoutPage.SubmitRejection | frontend/src/pages/Checkout.tsx:212-229 | the same, for the part of the handler past the guards |
| CheckoutPage.RequestCoversCart | frontend/src/pages/Checkout.tsx:231-246 | a sent order covers every cart entry in order with its quantity, from a known store, to the typed address |
| CheckoutPage.SuccessEmptiesCart | frontend/src/pages/Checkout.tsx:255-257 | a successful order empties the cart and removes the stored key |
| CheckoutPage.MissingItemDropped | frontend/src/pages/Checkout.tsx:277-290 | when the backend reports a dish as missing, the page drops exactly that dish's entries and stores the rest |
| CheckoutPage.Checkout.constructor | frontend/src/pages/Checkout.tsx:41-56 | the page starts from the stored cart, not busy |
| CheckoutPage.Checkout.HandlePlaceOrder | frontend/src/pages/Checkout.tsx:134-301 | the shown cart, stored cart and outcome become those of the place-order function, and the busy flag is back where it was |
| LocationHook.MountTrust | frontend/src/hooks/useLocation.ts:57-84 | a saved position is loaded exactly when it is force-set or less than an hour old, otherwise both keys are removed; loading one always marks the permission granted |
| LocationHook.MountQueryWins | frontend/src/hooks/useLocation.ts:38-51 | when the Permissions API answers, its answer replaces the "granted" set by loading a saved position |
| LocationHook.Fixes | frontend/src/hooks/useLocation.ts:138-161 | there are no more fixes than events |
| LocationHook.BestOfMinimal | frontend/src/hooks/useLocation.ts:141-149 | the kept fix is one of the fixes, has an accuracy, and no fix is more accurate |
| LocationHook.FirstStop | frontend/src/hooks/useLocation.ts:151-171 | the watch stops at the first error, fix better than 30 m or fifth fix, and at none before |
| LocationHook.Sampling | frontend/src/hooks/useLocation.ts:128-199 | the callbacks updating the best fix and the count settle the promise as the sampling outcome says |
| LocationHook.LaterEventsIgnored | frontend/src/hooks/useLocation.ts:152-170 | events after the watch stopped change nothing |
| LocationHook.ErrorAfterFixResolves | frontend/src/hooks/useLocation.ts:162-168 | an error after a fix with an accuracy resolves with a fix at least as accurate as every earlier one |
| LocationHook.ErrorWithoutAccuracyRejects | frontend/src/hooks/useLocation.ts:141-170 | an error before any fix with an accuracy rejects, even after fixes without one |
| LocationHook.ForceFlagBlocksGps | frontend/src/hooks/useLocation.ts:89-106 | while the force flag is set, a non-forced request does not depend on the GPS and leaves storage alone |
| LocationHook.ForcedRefreshClears | frontend/src/hooks/useLocation.ts:107-225 | a forced refresh removes the force flag, and the saved position is removed or replaced by the new fix |
| LocationHook.RejectedPermission | frontend/src/hooks/useLocation.ts:226-238 | a failed sampling shows the error text of its code, and only code 1 marks the permission denied |
| LocationHook.StoredFixReloads | frontend/src/hooks/useLocation.ts:57-225 | a fix the hook stores is reloaded unchanged on a page load within the hour |
| LocationHook.GetCurrentLocationDenied | frontend/src/hooks/useLocation.ts:245-252 | with the permission denied only the error message changes |
| LocationHook.ClearKeepsFlag | frontend/src/hooks/useLocation.ts:89-258 | after clearing, a non-forced request under the force flag finds nothing and leaves the position empty |
| LocationHook.Hook.constructor | frontend/src/hooks/useLocation.ts:24-27 | no position, not loading, no error, permission unknown |
| LocationHook.Hook.OnMount | frontend/src/hooks/useLocation.ts:29-85 | state and storage become those of the mount function |
| LocationHook.Hook.RequestPermission | frontend/src/hooks/useLocation.ts:88-242 | state and storage become those of the request function |
| LocationHook.Hook.GetCurrent | frontend/src/hooks/useLocation.ts:245-252 | state and storage become those of getCurrentLocation |
| LocationHook.Hook.ClearLocation | frontend/src/hooks/useLocation.ts:255-258 | the position and the saved position go; the force flag and everything else stay |
| LocationHook.Hook.SetLocationManual | frontend/src/hooks/useLocation.ts:261-279 | the position becomes the given coordinates stamped now, without accuracy, and is saved; nothing else changes |
| LocationContext.RoadLabel | frontend/src/context/LocationContext.tsx:78-85 | the road is kept or prefixed "Đường ", and the result always says road |
| LocationContext.WardLabel | frontend/src/context/LocationContext.tsx:88-95 | the ward is kept or prefixed "Phường ", and the result always says ward or commune |
| LocationContext.DistrictLabel | frontend/src/context/LocationContext.tsx:98-110 | the district is kept or prefixed "Quận " in a city or town and "Huyện " elsewhere, and the result always says which |
| LocationContext.LabelsIdempotent | frontend/src/context/LocationContext.tsx:78-110 | labelling a label again changes nothing |
| LocationContext.FormatParts | frontend/src/context/LocationContext.tsx:72-118 | the successive pushes build the address pieces in reading order |
| LocationContext.NoPartsIff | frontend/src/context/LocationContext.tsx:72-118 | there are no pieces exactly when the reply names no house number, road, ward, district, settlement or province |
| LocationContext.PiecesLabelled | frontend/src/context/LocationContext.tsx:78-110 | the road piece says road, the ward piece ward or commune, the district piece district |
| LocationContext.SplitWithoutSeparator | frontend/src/context/LocationContext.tsx:123 | splitting text without the separator gives the text alone |
| LocationContext.DisplayFallbackSingle | frontend/src/context/LocationContext.tsx:121-126 | a display name without commas is used whole, trimmed |
| LocationContext.FormattedCases | frontend/src/context/LocationContext.tsx:70-135 | a reply without an address fails even with a display name, one with pieces never uses the display name, and nothing is found exactly when the request fails, there is no address, or neither pieces nor a display name |
| LocationContext.Stored | frontend/src/context/LocationContext.tsx:35-41 | the storage key holds the address exactly when it is a non-empty string |
| LocationContext.AddressContext.constructor | frontend/src/context/LocationContext.tsx:22-24 | no address, not fetching, not failed |
| LocationContext.AddressContext.SetAddress | frontend/src/context/LocationContext.tsx:35-152 | the address is set and the storage key mirrors it |
| LocationContext.AddressContext.Mount | frontend/src/context/LocationContext.tsx:27-41 | a stored non-empty address is shown and written back, otherwise the shown one stays |
| LocationContext.AddressContext.LocationChanged | frontend/src/context/LocationContext.tsx:44-48 | a new position clears the failure mark and nothing else changes |
| LocationContext.AddressContext.FetchAddress | frontend/src/context/LocationContext.tsx:52-147 | without a position, with an address or after a failure nothing happens; otherwise a formatted address is shown and stored, or the failure is marked |
| LocationContext.ShownAddressKept | frontend/src/context/LocationContext.tsx:51-53 | an address already shown is never replaced by reverse geocoding |
| LocationPermission.HouseNumberDropped | frontend/src/components/LocationPermission.tsx:104 | an address starting "digits/…," loses that prefix and the blanks after the comma, and is trimmed |
| LocationPermission.NoHouseNumberKept | frontend/src/components/LocationPermission.tsx:104 | an address not starting with a digit is only trimmed |
| LocationPermission.CommaParts | frontend/src/components/LocationPermission.tsx:110 | no comma part is empty |
| LocationPermission.BuildCandidates | frontend/src/components/LocationPermission.tsx:98-132 | the pushes build the candidate list |
| LocationPermission.PushSimplified | frontend/src/components/LocationPermission.tsx:99-118 | the pushes build the simplified forms in order |
| LocationPermission.PushAreaNames | frontend/src/components/LocationPermission.tsx:119-132 | the pushes append the fixed area names |
| LocationPermission.CandidatesFacts | frontend/src/components/LocationPermission.tsx:98-132 | the trimmed input comes first, an address in the Biên Hòa area brings the fixed Biên Hòa names, one in Hố Nai the Hố Nai names too, and there are at most ten |
| LocationPermission.Dedupe | frontend/src/components/LocationPermission.tsx:135 | removing repeats keeps exactly the same strings |
| LocationPermission.DedupeDistinct | frontend/src/components/LocationPermission.tsx:135 | the result has no repeats |
| LocationPermission.DedupeKeepsFirst | frontend/src/components/LocationPermission.tsx:135 | the first candidate stays first |
| LocationPermission.DedupeOfDistinct | frontend/src/components/LocationPermission.tsx:135 | a list without repeats is left as it is |
| LocationPermission.UniqueCandidates | frontend/src/components/LocationPermission.tsx:135 | the loop keeping unseen candidates gives the repeat-free list |
| LocationPermission.FirstHitIsFirst | frontend/src/components/LocationPermission.tsx:138-215 | there is a hit exactly when some candidate's search gives numeric coordinates, and the hit is the first such candidate with its coordinates |
| LocationPermission.TryCandidates | frontend/src/components/LocationPermission.tsx:138-215 | the loop with its early return finds the first hit |
| LocationPermission.GeocodeFound | frontend/src/components/LocationPermission.tsx:94-257 | an address in the Biên Hòa area is always located; any other is located exactly when one of its candidates is found |
| LocationPermission.GeocodeTriesInputFirst | frontend/src/components/LocationPermission.tsx:99-157 | when the trimmed input is found, its coordinates are used |
| LocationPermission.GeocodeAddress | frontend/src/components/LocationPermission.tsx:94-257 | success exactly when located; then the position is stored and shown, stamped now, and the trimmed input becomes the stored address; on failure nothing changes |
| LocationPermission.NoticeFacts | frontend/src/components/LocationPermission.tsx:394-430 | exactly one notice shows, the "(TP.HCM)" warning only south of latitude 11, and the default Biên Hòa coordinates get the confirmation |
| LocationPermission.ForceSetBienHoa | frontend/src/components/LocationPermission.tsx:57-91 | the position becomes the Biên Hòa coordinates stamped now, saved without forceSet, with the force flag set and the Biên Hòa address stored |
| LocationPermission.ForceSetSticks | frontend/src/components/LocationPermission.tsx:57-91 | what force-setting stores is loaded on every later visit, however old, and no non-forced request replaces it |
| MerchantOrderPage.Elapsed | frontend/src/pages/Merchant/MerchantConfirmOrder.tsx:101-122 | the largest unit of which more than one has elapsed and how many whole ones, or the whole seconds when at most a minute has |
| MerchantOrderPage.TimeSinceReadsBack | frontend/src/pages/Merchant/MerchantConfirmOrder.tsx:101-122 | the text starts with the count, read back unchanged, followed by the unit's words |
| MerchantOrderPage.MinuteBoundary | frontend/src/pages/Merchant/MerchantConfirmOrder.tsx:118-121 | sixty seconds still read in seconds, sixty-one as one minute |
| MerchantOrderPage.ActionStatusIsBackendCode | frontend/src/pages/Merchant/MerchantConfirmOrder.tsx:296-304 | each button asks for a status code the backend accepts, spelled its way |
| MerchantOrderPage.HandleAction | frontend/src/pages/Merchant/MerchantConfirmOrder.tsx:280-311 | a status change is sent exactly when the details are loaded and the address id parses, for that id and the button's status |
| MerchantOrderPage.HandleActionIds | frontend/src/pages/Merchant/MerchantConfirmOrder.tsx:287-291 | an id without digits is never sent, and an id starting with a number is read up to its first non-digit |
| MerchantOrderPage.PaymentLabel | frontend/src/pages/Merchant/MerchantConfirmOrder.tsx:242 | the card label shows exactly for 'card' |
| MerchantOrderPage.RefundLinkAlways | frontend/src/pages/Merchant/MerchantConfirmOrder.tsx:242-585 | the payment label is never "Cash", so the refund link always shows |
| MerchantOrderPage.ButtonsByStatus | frontend/src/pages/Merchant/MerchantConfirmOrder.tsx:393-605 | whatever the case, a pending order offers confirm and reject, a confirmed one ready and cancel, a ready one no cancel; confirm shows exactly for pending and ready exactly for confirmed |
| MerchantOrderPage.ActionStatusIsUpper | frontend/src/pages/Merchant/MerchantConfirmOrder.tsx:393 | upper-casing leaves the codes the buttons send unchanged |
| MerchantOrderPage.ActionLeadsTo | frontend/src/pages/Merchant/MerchantConfirmOrder.tsx:296-605 | once the requested status is stored, a confirmed order offers ready with its links, a ready one only its links, a cancelled one nothing |
| MerchantOrderPage.BadgeCaseMismatch | frontend/src/pages/Merchant/MerchantConfirmOrder.tsx:420-440 | a status that upper-cases to CONFIRMED without being spelled so reads as confirmed but gets the colour of an unknown status |
| MerchantDashboard.StatusClass | frontend/src/pages/Merchant/MerchantDashboard.tsx:79-86 | a status the dashboard does not recognise, in any case, is grey |
| MerchantDashboard.StatusText | frontend/src/pages/Merchant/MerchantDashboard.tsx:88-95 | a status the dashboard does not recognise is shown as stored |
| MerchantDashboard.CaseInsensitive | frontend/src/pages/Merchant/MerchantDashboard.tsx:79-95 | two spellings differing only in case get the same colour, and the same label when recognised |
| MerchantDashboard.Aliases | frontend/src/pages/Merchant/MerchantDashboard.tsx:83-93 | READY reads as READY_FOR_PICKUP and CANCELLED as CANCELED, and cancelled orders are grey |
| MerchantDashboard.CodeIsUpper | backend/orders/models.py:17-24 | the backend's status codes are already upper-case |
| MerchantDashboard.BackendStatuses | frontend/src/pages/Merchant/MerchantDashboard.tsx:79-95 | of the backend's statuses exactly PENDING, CONFIRMED, READY_FOR_PICKUP and CANCELED are labelled; the three delivery ones show as stored, in grey |
| MerchantDashboard.OrZero | frontend/src/pages/Merchant/MerchantDashboard.tsx:168-170 | a present number is kept, a missing one is 0 |
| MerchantDashboard.OrZeroText | frontend/src/pages/Merchant/MerchantDashboard.tsx:169-177 | a present non-empty string is kept, otherwise "0" |
| MerchantDashboard.Summaries | frontend/src/pages/Merchant/MerchantDashboard.tsx:174-181 | one row per recent order, in order, each its summary |
| MerchantDashboard.DashboardFacts | frontend/src/pages/Merchant/MerchantDashboard.tsx:159-197 | a failed request shows zeros and no orders; otherwise the rating is 4.5, a missing revenue parses "0", and the rows copy each order's id, status and customer, with a missing total parsing "0" |
| CustomerOrders.FirstKeyword | frontend/src/pages/CustomerOrders.tsx:35-55 | the result is the first keyword the lower-cased status contains, from the given one on, or past the end when none is |
| CustomerOrders.StatusByFirstKeyword | frontend/src/pages/CustomerOrders.tsx:35-55 | the colour and label chains are the first-match lookup in the keyword table, with grey and the status itself when no keyword is found |
| CustomerOrders.EarlierKeywordWins | frontend/src/pages/CustomerOrders.tsx:35-55 | a status containing a keyword is coloured, by that keyword or an earlier one |
| CustomerOrders.LowerCode | backend/orders/models.py:17-24 | lower-casing a backend code gives its lower-case spelling |
| CustomerOrders.CanceledFallsThrough | frontend/src/pages/CustomerOrders.tsx:42-53 | the backend's CANCELED (one L) matches no keyword and shows grey, as stored |
| CustomerOrders.CanceledLacksKeywords | frontend/src/pages/CustomerOrders.tsx:35-55 | "canceled" contains no keyword |
| CustomerOrders.PickedUpFallsThrough | frontend/src/pages/CustomerOrders.tsx:35-55 | PICKED_UP matches no keyword and shows grey, as stored |
| CustomerOrders.PickedUpLacksKeywords | frontend/src/pages/CustomerOrders.tsx:35-55 | "picked_up" contains no keyword |
| CustomerOrders.RecognisedCodes | frontend/src/pages/CustomerOrders.tsx:35-55 | pending, confirmed, ready for pickup, delivering and delivered each get their own colour and label |
| CustomerOrders.CodeLabelled | frontend/src/pages/CustomerOrders.tsx:35-55 | a recognised code gets the colour and label of its keyword |
| CustomerOrders.KeywordOf | frontend/src/pages/CustomerOrders.tsx:35-55 | each recognised code's lower-case spelling finds its own keyword first |
| CustomerOrders.FirstKeywordAt | frontend/src/pages/CustomerOrders.tsx:35-55 | the earliest keyword present is the one found |
| CustomerOrders.SumQuantitiesAppend | frontend/src/pages/CustomerOrders.tsx:76-77 | the quantity sum splits over a concatenation |
| CustomerOrders.SumOfNonNegative | frontend/src/pages/CustomerOrders.tsx:76-77 | with non-negative quantities the sum is non-negative, and zero exactly when every item counts zero |
| CustomerOrders.ToRow | frontend/src/pages/CustomerOrders.tsx:74-89 | each field takes the first truthy source in the order the page tries them: the sent total quantity or the items' sum, the order id or the id, the total or total_amount or "0", the item count or the items' number |
| CustomerOrders.Rows | frontend/src/pages/CustomerOrders.tsx:74-90 | one row per order, in order |
| CustomerOrders.Orders | frontend/src/pages/CustomerOrders.tsx:70-95 | a failed request shows nothing; otherwise one row per order, in order, with its id and status |
| Text.LowerIdempotent | backend/create_menu_items.py:67 | lower-casing twice is lower-casing once |
| Text.StripEmptyIffBlank | frontend/src/pages/Checkout.tsx:140 | trimming leaves nothing exactly when every character is white space |
| Text.StripIdempotent | frontend/src/components/LocationPermission.tsx:100 | trimming twice is trimming once |
| Text.JoinSplit | frontend/src/context/LocationContext.tsx:123-126 | joining the pieces of a split with the same separator gives the text back |
| Text.ParseIntOfIntToString | frontend/src/pages/Merchant/MerchantConfirmOrder.tsx:287 | a rendered integer followed by a non-digit parses back to itself |
| Text.ParseIntNaN | frontend/src/pages/Merchant/MerchantConfirmOrder.tsx:287-291 | text without digits parses to NaN |
| Lists.SortByFacts | frontend/src/pages/CustomerApp.tsx:217-224 | the sort orders by the key, keeps the same elements, and keeps the input order among equal keys |

## Left out

- Distances: the haversine formula lives in a module that is not part of this model. Every distance is a parameter, and so is Python's `round(x, 2)`, which the dish list applies before sorting (`round2`).
- MenuViews.MerchantsNearby: returns each store's raw distance. The store list sends `round(distance_km, 2)` (backend/menus/views.py:85) to the client, and that rounding is not applied here. The sort is on the raw distance, as in the source.
- Delivery fees and other float arithmetic in the order serialiser are not modelled.
- The revenue, delivery-history, my-orders and merchant-dashboard aggregations on the backend are not modelled. They are date-window queries with float fees.
- Transactions, row locks and races between shippers: every operation is one sequential step on the tables. Two shippers racing for the same order is not modelled.
- Database keys: the next primary key is a counter held by the model or passed in.
- Database reads: the rows a query yields are a parameter (`queue`). Each operation's requires ties them to the query: every selected row once and no other, in the query's order where it sets one (`WaitingQueue`, `CanceledQueue`, `AllStoresById`, `EachStoreOnce`, `ActiveQueue`).
- Password hashing, JWT issuance, `authenticate` and the mail task are left out. Passwords are stored as given, and delivery of a mail is a boolean parameter.
- Django's `EmailValidator` is a boolean parameter (`emailShaped`): whether the trimmed e-mail has the shape of an address. The other field checks of the account serializers (blank, trimmed, minimum and maximum length, role choices) are modelled.
- A required account field left out of the request answers 400 as a blank one does. The model's parameters are always present, so a missing field is modelled by its blank value only.
- Accounts.AccountStore.Register: the e-mail is stored trimmed; `create_user` also lower-cases its domain part (`normalize_email`), which is not modelled.
- The phone field of the register form is accepted and ignored by the source; the model has no parameter for it.
- Randomness is a parameter: the digit draws for one-time codes, the dish sample and image choice in menu seeding.
- Printing and logging are left out, including the export script's summary lines other than its grand total.
- The `price is None` and `stock is None` guards in checkout are unreachable: both columns are NOT NULL in `backend/menus/models.py:80-81`.
- The stock-warnings list built during checkout is left out. It only feeds a log line.
- Case mapping is partial:
  - lower-casing covers ASCII, Latin-1, the Latin Extended-A letters (U+0100–U+017E) except İ, Ơ/Ư and the Vietnamese block U+1EA0–U+1EF9. İ, whose Python lower case is two characters, is left unchanged;
  - upper-casing covers ASCII letters only;
  - every other character is left unchanged.
- Unicode normalisation is not modelled.
- MerchantAccounts.IsAlnum: Python's `str.isalnum` is decided for ASCII, Latin-1, Latin Extended-A and -B (U+0000–U+024F) and the Vietnamese block U+1EA0–U+1EF9 only. Every other letter or digit, such as Greek, Cyrillic or CJK, counts as not alphanumeric and is dropped from a derived username.
- Trimming removes the six ASCII white-space characters only.
- `parseFloat` is a parameter from text to a number. NaN and `toFixed` formatting are not modelled.
- Browser side effects are not modelled: toasts, alerts, navigation, `setTimeout` delays, `window.location.reload`, the `cartUpdated` event and rendering.
- Asynchronous ordering: every effect runs to completion before the next starts. The hook's two reads of `Date.now()` in one request are a single `now`.
- The checkout page's background validation on load (`frontend/src/pages/Checkout.tsx:53-107`) is not modelled. It only warns and prunes; the rules that block an order are in `handlePlaceOrder`, which is modelled.
- Form flags such as `isGeocoding` and `isEditingAddress` are not modelled, and neither is the address-editing form.
- The Nominatim and GPS replies are parameters.
- ClientCart.CartStorage.constructor: the stored `cart` key is taken to be absent, empty or well-formed JSON holding cart items. Text that `JSON.parse` rejects makes the add handler throw, and that path is not modelled.
- The merchant order page's order-id mismatch logging, its item mapping and `formatCurrency`/`formatDate` are not modelled.
- The dashboard's authentication redirect is not modelled.
- Pages that only wrap one backend call are not part of this model: shipper app, profile, login, reviews, store discovery, complaints, inventory, menu editing, refunds and out-of-stock forms. Their rules are modelled on the backend side.
- LocationHook.Hook.OnMount: the Permissions API answer is applied after the saved position is loaded, as if it always arrived last.
- LocationHook.Sampling: the timeout's single `getCurrentPosition` reading is a parameter (`fallback`). The 25-second timer is not modelled; the watch is assumed never to stop when no stopping event occurs among the given events.

## Behaviour worth knowing

These follow from the source as written. Each is proved in the model.

- **Out-of-stock CANCEL gives no stock back.** In `handle_out_of_stock`, the CANCEL action gives no stock back. It does mark the order CANCELED, so the customer's own cancel is refused afterwards (`OrderRules.OutOfStockCancelKeepsStockTaken`).
- **A customer can cancel in any status.** A customer may set CANCELED on their own order in any status, and past CONFIRMED that restocks nothing (`OrderRules.CustomerCancelsAnyStatus`).
- **The restore script counts twice.** It restocks every CANCELED order, including those `cancel` already restocked, so running it after a cancel gives the stock back twice (`RestoreStock.CancelThenRestoreCountsTwice`).
- **Two unreachable tests in the export.** The export's second look at the store name can never pick Đồng Nai or Bình Dương (`ExportAccounts.RegionAsWrittenIsRegionOf`).
- **Two kinds of email match.** Password reset looks the user up by exact email, while forgot-password matches case-insensitively.
- **Cart and checkout totals differ.** The checkout total is not clamped at zero, unlike the cart's (`CheckoutPage.SummariesAgree`).
- **The saved-position grant test is redundant.** When a saved position is loaded, the inner test that grants permission repeats the outer one, so it always grants (`LocationHook.MountTrust`).
- **Clearing keeps the force flag.** `clearLocation` keeps the force flag, so a later ordinary request leaves the position empty (`LocationHook.ClearKeepsFlag`).
- **An error can reject even after fixes.** GPS sampling rejects on an error even after fixes, when none of them reported an accuracy (`LocationHook.ErrorWithoutAccuracyRejects`).
- **Force-set's flag is overwritten.** The `forceSet: true` it stores is overwritten at once by `setLocation`, so only the separate flag records it (`LocationPermission.ForceSetBienHoa`).
- **The display-name fallback keeps spaces.** It rejoins untrimmed pieces with ", ", so their own leading spaces stay.
- **The badge colour is case-sensitive.** On the merchant order page the badge colour compares CONFIRMED and READY_FOR_PICKUP case-sensitively, while the text does not (`MerchantOrderPage.BadgeCaseMismatch`).
- **The refund link always shows.** It tests for a "Cash" label that the mapping never produces (`MerchantOrderPage.RefundLinkAlways`).
- **The customer order list misses two codes.** It never recognises the backend's CANCELED (one L) or PICKED_UP, and shows them raw in grey (`CustomerOrders.CanceledFallsThrough`, `CustomerOrders.PickedUpFallsThrough`).
- **The dashboard shows delivery codes raw.** It shows PICKED_UP, DELIVERING and DELIVERED as stored, in grey (`MerchantDashboard.BackendStatuses`).
- **Order ids are read loosely.** The order page reads an order id the way `parseInt` does, so "12abc" is order 12 (`MerchantOrderPage.HandleActionIds`).
