# Café ordering: a verified model of its core logic

This project models the deterministic core of a café ordering system. The
system has a customer web app, a kitchen and admin dashboard, and a Python
backend over PostgreSQL. The model covers:

- the admin order queue: per-item statuses, the rolled-up order status, and
  batch completion of a group of orders;
- the customer session: the cart, the order summary, checkout, loyalty
  points, and scratch-card records in local storage;
- the backend helpers: SKU generation, the partial-update `SET` builder,
  order pricing, the waiter guard of order creation, and the login
  projection;
- the preparation and validation of the kitchen-grouping request;
- the smaller pages: the menu card, the admin menu editor, the scratch-card
  page, the staff order board, the profile badge and the sign-in form.

Each page's mutable state is a Dafny `class` whose methods are proved
against pure specification functions. The lemmas then establish what the
code promises about those functions.

Files and modules:

| file | module | models |
|---|---|---|
| `wrappers.dfy` | `Wrappers` | Option and Result |
| `json.dfy` | `Json` | parsed JSON values, member lookup (last duplicate wins), own-property enumeration order |
| `text.dfy` | `Text` | ASCII case mapping, `includes`, `split`/`join`, `str(n)`, `zfill` |
| `admin_orders.dfy` | `AdminOrders` | admin order queue |
| `customer_store.dfy` | `CustomerStore` | customer page session store |
| `database.dfy` | `MenuDatabase`, `OrderDatabase`, `UserDatabase` | backend database helpers |
| `ai_analyser.dfy` | `OrderClubbing` | grouping request and reply validation |
| `menu_card.dfy` | `MenuCardView` | customer menu card |
| `admin_menu.dfy` | `MenuAdmin` | admin menu editor |
| `scratch_cards.dfy` | `ScratchCardPage` | scratch-card page |
| `staff_orders.dfy` | `StaffOrders` | staff order board |
| `user_profile.dfy` | `UserProfile` | initials badge and logout |
| `auth.dfy` | `SignIn` | sign-in submit and role routing |

Behaviours of the code worth noting:

- Adding to the cart has no positive-quantity guard. `CustomerStore.AddToCart` accepts any quantity.
- The customer order summary has no tax or packaging: total = subtotal, and points = ⌊subtotal / 10⌋.
- The kitchen-grouping script (`backend/ai_analyser.py`, `main`) uses `OrderDatabase` without importing it. Its loop is modelled as written.

## Model

| member | source | states |
|---|---|---|
| AdminOrders.OverallStatus | frontend/app/admin/dashboard/orders/page.tsx:91-94 | exactly one distinct item status gives that status; none or several give "Pending" |
| AdminOrders.RollupAfterSetting | frontend/app/admin/dashboard/orders/page.tsx:102-105 | after setting item `name` to `st`, the order rolls up to `st` iff every other item already has `st`, else "Pending" |
| AdminOrders.WithItemStatus | frontend/app/admin/dashboard/orders/page.tsx:102 | only items named `name` change, and only their status |
| AdminOrders.MarkReady | frontend/app/admin/dashboard/orders/page.tsx:120-122 | items whose name is listed become "Ready"; all others keep their status; names, prices, quantities and order are kept |
| AdminOrders.UpdateItemStatus | frontend/app/admin/dashboard/orders/page.tsx:96-110 | orders with another id are untouched; the matching order gets the updated items and their rollup; rollup consistency is preserved |
| AdminOrders.CompleteOrders | frontend/app/admin/dashboard/orders/page.tsx:117-129 | orders not listed are returned unchanged; listed orders get the marked items and the rollup of them; rollup consistency is preserved |
| AdminOrders.CompleteOrdersIdempotent | frontend/app/admin/dashboard/orders/page.tsx:117-129 | completing the same batch twice equals completing it once |
| AdminOrders.CompletedOrderStatus | frontend/app/admin/dashboard/orders/page.tsx:120-127 | when the batch names some item of an order, the order becomes "Ready" iff every unnamed item was already "Ready", else "Pending" |
| AdminOrders.RemoveGroup | frontend/app/admin/dashboard/orders/page.tsx:114 | keeps exactly the groups with a different id; no match leaves the list unchanged |
| AdminOrders.RemoveGroupConcat | frontend/app/admin/dashboard/orders/page.tsx:114 | the removal distributes over concatenation, so the kept groups stay in order |
| AdminOrders.ElapsedMinutes | frontend/app/admin/dashboard/orders/page.tsx:70-72 | for a past creation time, the minutes are the elapsed time rounded up to whole minutes |
| AdminOrders.TransformOrders | frontend/app/admin/dashboard/orders/page.tsx:68-89 | one order per record with its id, channel and price; the preparing time is the elapsed minutes since creation; every item and order starts "Pending"; tables are joined with ", " or "N/A" when there are none; the result is rollup-consistent |
| AdminOrders.OrderBoard.constructor | frontend/app/admin/dashboard/orders/page.tsx:39-40 | both lists start empty |
| AdminOrders.OrderBoard.LoadOrders | frontend/app/admin/dashboard/orders/page.tsx:47-56 | a response replaces the orders by their transformation; a failure keeps the old list |
| AdminOrders.OrderBoard.LoadGroups | frontend/app/admin/dashboard/orders/page.tsx:58-66 | a response replaces the groups; a failure keeps the old list |
| AdminOrders.OrderBoard.UpdateItemStatusFrontend | frontend/app/admin/dashboard/orders/page.tsx:96-110 | the orders become UpdateItemStatus of the old orders; the groups are unchanged |
| AdminOrders.OrderBoard.HandleCompleteGroup | frontend/app/admin/dashboard/orders/page.tsx:112-130 | the group is removed and the listed orders are completed |
| CustomerStore.AddToCart | frontend/app/customer/page.tsx:73-84 | an existing (id, variant) line grows by the quantity and no line is added; a new pair appends one line at the end; unique keys are preserved |
| CustomerStore.AddToCartMerges | frontend/app/customer/page.tsx:73-84 | adding q1 then q2 of the same pair equals adding q1 + q2 once |
| CustomerStore.UpdateQuantity | frontend/app/customer/page.tsx:44-52 | below 1 the cart is unchanged; otherwise every line with the id, whatever its variant, takes the new quantity and the others are untouched |
| CustomerStore.RemoveFromCart | frontend/app/customer/page.tsx:103-105 | keeps exactly the lines with another id |
| CustomerStore.RemoveFromCartConcat | frontend/app/customer/page.tsx:103-105 | removal distributes over concatenation, so the kept lines stay in order |
| CustomerStore.RemoveFromCartUnique | frontend/app/customer/page.tsx:103-105 | removal keeps the (id, variant) keys unique |
| CustomerStore.SubtotalAdditive | frontend/app/customer/page.tsx:56 | the subtotal of two carts run together is the sum of their subtotals |
| CustomerStore.PointsFor | frontend/app/customer/page.tsx:59 | points p satisfy 10p ≤ amount < 10(p + 1) |
| CustomerStore.Summary | frontend/app/customer/page.tsx:55-60 | the subtotal is Σ price × quantity over the cart (`Subtotal`), discount 0, total = subtotal, points = ⌊subtotal / 10⌋, all zeros for an empty cart |
| CustomerStore.SubtotalAfterRemove | frontend/app/customer/page.tsx:103-105 | removing a product lowers the subtotal by exactly that product's lines |
| CustomerStore.FilteredItems | frontend/app/customer/page.tsx:63-68 | keeps exactly the entries whose lower-cased name or description contains the lower-cased query and whose category matches or is "all" |
| CustomerStore.FilteredItemsConcat | frontend/app/customer/page.tsx:63-68 | filtering distributes over concatenation, so the result keeps the menu's order and repeats |
| CustomerStore.EmptyQueryShowsAll | frontend/app/customer/page.tsx:63-68 | the empty query with "all" shows the whole menu in order |
| CustomerStore.Upsert | frontend/app/customer/page.tsx:148-161 | the new entry is present; the list grows by one iff no entry had the id; other entries are kept |
| CustomerStore.FindCardIndex | frontend/app/customer/page.tsx:151 | returns the first index with the id, or -1 iff none has it |
| CustomerStore.UpsertAt | frontend/app/customer/page.tsx:152-158 | replacing at the found index, or appending when it is -1, is the upsert |
| CustomerStore.Session.constructor | frontend/app/customer/page.tsx:17-24 | empty cart, zero points, no history, no dialog |
| CustomerStore.Session.LoadFromStorage | frontend/app/customer/page.tsx:28-31 | on mount the history and the card list are read back from storage |
| CustomerStore.Session.HandleAddToCart | frontend/app/customer/page.tsx:73-84 | the cart becomes AddToCart of the old cart |
| CustomerStore.Session.HandleUpdateQuantity | frontend/app/customer/page.tsx:44-52 | the cart becomes UpdateQuantity of the old cart |
| CustomerStore.Session.HandleRemoveFromCart | frontend/app/customer/page.tsx:103-105 | the cart becomes RemoveFromCart of the old cart |
| CustomerStore.Session.HandleRedeemReward | frontend/app/customer/page.tsx:107-115 | the cost is taken only when the balance covers it, so a redemption never leaves it negative |
| CustomerStore.Session.SaveOrder | frontend/app/customer/page.tsx:117-121 | the order is appended and the stored copy equals the history |
| CustomerStore.Session.HandleCheckout | frontend/app/customer/page.tsx:128-141 | an empty cart changes nothing; otherwise the cart is appended to the history, ⌊subtotal / 10⌋ points are added and the cart is emptied |
| CustomerStore.Session.SaveScratchCard | frontend/app/customer/page.tsx:148-161 | the stored cards become the upsert of the card with its flag |
| CustomerStore.Session.HandleClaimScratchCard | frontend/app/customer/page.tsx:163-172 | upserts the card as claimed, appends it to the shown list and closes the dialog |
| CustomerStore.Session.HandleCloseScratchCard | frontend/app/customer/page.tsx:174-179 | upserts the card as unclaimed, appends it and closes the dialog |
| MenuDatabase.SkuPrefix | backend/database.py:119 | the first (up to) three characters, upper-cased |
| MenuDatabase.GenerateSku | backend/database.py:116-128 | None iff the count query fails; otherwise prefix + count + 1, zero-padded to exactly three digits when shorter and never truncated (a longer numeral has no leading zero) |
| MenuDatabase.GeneratedSkusDiffer | backend/database.py:120-123 | different counts in a sub-category give different SKUs |
| MenuDatabase.FirstSku | backend/database.py:119-123 | the first item of a sub-category gets prefix + "001" |
| MenuDatabase.SharedPrefixCollides | backend/database.py:119-127 | two sub-categories with the same upper-cased three-letter prefix and the same row count get the same SKU |
| MenuDatabase.ColdCoffeeMeetsColdDrinks | backend/database.py:119-127 | example: the first "Cold Coffee" and the first "Cold Drinks" item get the same SKU |
| MenuDatabase.AddMenuItem | backend/database.py:130-153 | a failed SKU returns "Error generating SKU" and inserts nothing; a failed insert returns "Error adding menu item" and changes nothing; otherwise one row with the generated SKU is appended |
| MenuDatabase.ClausesMatchValues | backend/database.py:171-181 | one clause per bound value; no clause iff every value is None |
| MenuDatabase.EditMenuItem | backend/database.py:166-193 | "No updates provided" for no arguments, "No valid fields to update" when every value is None, otherwise the success message naming the SKU or "Error updating menu item" when the statement fails |
| MenuDatabase.PlanEdit | backend/database.py:166-184 | "No updates provided" iff no updates; "No valid fields" iff all are None; otherwise one `col = %s` per non-None field in order, values in the same order, SKU last |
| MenuDatabase.PlaceholdersMatchParams | backend/database.py:177-184 | the query has exactly as many `%s` placeholders as bound values |
| OrderDatabase.CalculateOrderPrice | backend/database.py:267-289 | the loop total equals the per-line sum; an empty list gives 0 |
| OrderDatabase.OrderPriceAdditive | backend/database.py:272-286 | the price of two item lists run together is the sum of their prices |
| OrderDatabase.OrderPriceDecomposes | backend/database.py:281-286 | the total is Σ base × (1 + tax / 100) plus one packaging charge per priced line |
| OrderDatabase.CreateOrder | backend/database.py:291-322 | without a waiter it returns "No available waiters" and writes nothing; otherwise it appends one order and one allocation and returns the id, waiter and price |
| UserDatabase.FindByEmail | backend/database.py:75-78 | an employee with the email, None iff there is none |
| UserDatabase.LoginUser | backend/database.py:85-89 | a result iff the email is known and the password matches; it carries id, name, email, role and creation time but no password |
| OrderClubbing.FirstSeen | backend/ai_analyser.py:129-130 | exactly the ids present, each once |
| OrderClubbing.GroupRows | backend/ai_analyser.py:123-139 | one entry per order in first-seen order, carrying that order's SKUs and descriptions in row order |
| OrderClubbing.GatherRows | backend/ai_analyser.py:123-133 | after the loop the dictionary holds each order's SKUs and descriptions; its keys in insertion order are the first-seen ids |
| OrderClubbing.BuildOrderData | backend/ai_analyser.py:123-139 | the request the loop and listing build equals GroupRows |
| OrderClubbing.SkusAlignWithDescriptions | backend/ai_analyser.py:132-133 | SKUs and descriptions have equal length, and position j of both comes from one row of that order |
| OrderClubbing.SkuCountMatchesRows | backend/ai_analyser.py:124-133 | the SKUs across all orders number exactly the pending rows |
| OrderClubbing.ParseGroup | backend/ai_analyser.py:14-19 | a group validates only from an object |
| OrderClubbing.ParseGroups | backend/ai_analyser.py:82 | all elements validate, in order, or one of them fails |
| OrderClubbing.ClubOrdersReply | backend/ai_analyser.py:79-83 | a non-object reply fails; no "groups" gives []; an array succeeds iff every element validates, giving one group per element |
| OrderClubbing.GroupRoundTrip | backend/ai_analyser.py:14-19 | a dumped group validates back to itself |
| OrderClubbing.ClubOrdersRoundTrip | backend/ai_analyser.py:82-83 | a reply made of dumped groups post-processes to the same groups |
| MenuCardView.PriceOf | frontend/app/customer/components/MenuCard.tsx:40 | a price iff the key is a variation, and it is that variation's price |
| MenuCardView.PriceOfDistinct | frontend/app/customer/components/MenuCard.tsx:40 | with distinct keys, as an object has, `item.variations[key]` is the one price listed under that key |
| MenuCardView.FirstKey | frontend/app/customer/components/MenuCard.tsx:37 | the first key, none iff there are no variations |
| MenuCardView.UnitTotal | frontend/app/customer/components/MenuCard.tsx:43-45 | price × (100 + tax) / 100 + packaging, at least the price for non-negative parts; NaN (None) iff a part is missing |
| MenuCardView.Decremented | frontend/app/customer/components/MenuCard.tsx:82 | max(1, q − 1) |
| MenuCardView.PlusThenMinus | frontend/app/customer/components/MenuCard.tsx:82-91 | plus then minus restores any valid quantity |
| MenuCardView.Caption | frontend/app/customer/components/MenuCard.tsx:64 | the description, or the sub category, " - Ready in ", `NatToString` of the preparation time (no leading zeros) and " mins" when it is null or empty |
| MenuCardView.ShowsVariantSelector | frontend/app/customer/components/MenuCard.tsx:99 | shown iff there is more than one size; when hidden, the initially selected size is the only one |
| MenuCardView.ShowsTaxNote | frontend/app/customer/components/MenuCard.tsx:75 | shown iff the parsed tax is a number above zero; NaN hides it |
| MenuCardView.MenuCard.constructor | frontend/app/customer/components/MenuCard.tsx:36-37 | quantity 1 and the first variation selected |
| MenuCardView.MenuCard.CurrentPrice | frontend/app/customer/components/MenuCard.tsx:40 | defined whenever the item has a variation, and it is the selected variation's price |
| MenuCardView.MenuCard.Minus | frontend/app/customer/components/MenuCard.tsx:82 | quantity becomes max(1, q − 1), never below 1 |
| MenuCardView.MenuCard.Plus | frontend/app/customer/components/MenuCard.tsx:91 | quantity grows by exactly 1 |
| MenuCardView.MenuCard.SelectVariant | frontend/app/customer/components/MenuCard.tsx:99-103 | the chosen key becomes selected |
| MenuCardView.MenuCard.AddToCart | frontend/app/customer/components/MenuCard.tsx:119-122 | passes the current quantity (at least 1) and variant; the label is unit total × quantity |
| MenuAdmin.Entries | frontend/app/dashboard/menu/page.tsx:61-64 | an object's own entries in enumeration order (`Json.OwnEntries`); indexed elements or characters for arrays and strings; nothing for null and other values |
| Json.OwnEntries | frontend/app/dashboard/menu/page.tsx:61 | `Object.entries` of a parsed object: each key once with its last value, array-index keys first in ascending numeric order, then the other keys in order of first occurrence |
| Json.RankInjective | frontend/app/dashboard/menu/page.tsx:61 | distinct keys of one object never share an enumeration position, so the order is total |
| Json.IndexKeysAscending | frontend/app/dashboard/menu/page.tsx:61 | `{"500": 60, "250": 40}` enumerates "250" first, so the first variation is the 40 one |
| MenuAdmin.FormatRow | frontend/app/dashboard/menu/page.tsx:53-68 | fields come from fixed positions 0 to 10; variations are the entries of cell 7, empty when it is null |
| MenuAdmin.Fetched | frontend/app/dashboard/menu/page.tsx:48-77 | a failed request gives the empty menu; otherwise one item per row |
| MenuAdmin.EditChanged | frontend/app/dashboard/menu/page.tsx:78-83 | only `field` of `sku`'s record is set; its other fields and every other SKU's record are kept |
| MenuAdmin.ShownValue | frontend/app/dashboard/menu/page.tsx:193 | the pending edit unless it is absent or null, else the stored value |
| MenuAdmin.FirstElement | frontend/app/dashboard/menu/page.tsx:226 | `?.[0]`: element 0 of a non-empty array, member "0" of an object, undefined otherwise |
| MenuAdmin.ShownPrice | frontend/app/dashboard/menu/page.tsx:226 | the price of the first pending variation unless it is null or undefined, else the price of the row's first variation, undefined when there is none |
| MenuAdmin.ShownPriceAfterEdit | frontend/app/dashboard/menu/page.tsx:226-229 | after typing a price, the cell shows that price |
| MenuAdmin.ShownAfterEdit | frontend/app/dashboard/menu/page.tsx:193-194 | after typing a value the cell shows it |
| MenuAdmin.SaveBody | frontend/app/dashboard/menu/page.tsx:94 | the request carries the SKU and every pending field, a pending "sku" field overriding it |
| MenuAdmin.WithoutSku | frontend/app/dashboard/menu/page.tsx:115 | keeps exactly the items whose SKU differs |
| MenuAdmin.WithoutSkuConcat | frontend/app/dashboard/menu/page.tsx:115 | deletion distributes over concatenation, so order is kept |
| MenuAdmin.WithoutAbsentSku | frontend/app/dashboard/menu/page.tsx:115 | deleting an absent SKU changes nothing |
| MenuAdmin.Searched | frontend/app/dashboard/menu/page.tsx:123-126 | keeps exactly the items whose lower-cased name contains the lower-cased query |
| MenuAdmin.EmptySearchKeepsAll | frontend/app/dashboard/menu/page.tsx:123-126 | the empty query keeps every item in order |
| MenuAdmin.SearchedConcat | frontend/app/dashboard/menu/page.tsx:123-126 | the search distributes over concatenation, so matches keep their order |
| MenuAdmin.MenuPage.constructor | frontend/app/dashboard/menu/page.tsx:38-40 | empty menu and empty edit buffer |
| MenuAdmin.MenuPage.FetchMenuItems | frontend/app/dashboard/menu/page.tsx:48-77 | the menu becomes the fetched rows, or empty on failure |
| MenuAdmin.MenuPage.HandleEditChange | frontend/app/dashboard/menu/page.tsx:78-83 | the buffer becomes EditChanged of the old buffer |
| MenuAdmin.MenuPage.HandleEditSave | frontend/app/dashboard/menu/page.tsx:85-104 | nothing is sent iff the SKU has no or an empty record; a successful save drops only that record; a failed one keeps the buffer |
| MenuAdmin.MenuPage.HandleDelete | frontend/app/dashboard/menu/page.tsx:112-119 | on success the items with that SKU are dropped; on failure nothing changes |
| ScratchCardPage.Claimed | frontend/app/customer/scratchcards/page.tsx:38-40 | every card with the SKU is marked claimed; others are unchanged; length and order are kept |
| ScratchCardPage.ClaimMarks | frontend/app/customer/scratchcards/page.tsx:38-40 | after a claim every card with that SKU is claimed and every SKU stays in place |
| ScratchCardPage.ClaimIdempotent | frontend/app/customer/scratchcards/page.tsx:38-40 | claiming twice equals claiming once |
| ScratchCardPage.ClaimsCommute | frontend/app/customer/scratchcards/page.tsx:38-40 | two claims give the same list in either order |
| ScratchCardPage.ScratchCards.constructor | frontend/app/customer/scratchcards/page.tsx:23 | no cards shown |
| ScratchCardPage.ScratchCards.LoadClaimedScratchCards | frontend/app/customer/scratchcards/page.tsx:30-34 | the stored list, or empty when nothing is stored |
| ScratchCardPage.ScratchCards.HandleClaimScratchCard | frontend/app/customer/scratchcards/page.tsx:36-51 | the shown list becomes the claimed list and storage holds the same list |
| StaffOrders.WithStatus | frontend/app/dashboard/orders/page.tsx:68-74 | orders with the id take the new status and keep every other field; other orders are unchanged; length and order are kept |
| StaffOrders.UnknownIdUnchanged | frontend/app/dashboard/orders/page.tsx:70-72 | an unknown id leaves the list unchanged |
| StaffOrders.LastStatusWins | frontend/app/dashboard/orders/page.tsx:68-74 | two updates of one order equal the later one alone |
| StaffOrders.SeedIdsDistinct | frontend/app/dashboard/orders/page.tsx:22-55 | the four seeded orders have distinct ids |
| StaffOrders.OrdersPage.constructor | frontend/app/dashboard/orders/page.tsx:22-55 | the board starts with the four seeded orders |
| StaffOrders.OrdersPage.HandleUpdateStatus | frontend/app/dashboard/orders/page.tsx:68-74 | the orders become WithStatus of the old orders |
| UserProfile.HeadsAreWordStarts | frontend/app/customer/components/UserProfile.tsx:23-26 | the first characters of the space-separated pieces are exactly the characters that start a word |
| UserProfile.GetInitials | frontend/app/customer/components/UserProfile.tsx:22-28 | the upper-cased word starts; one character per non-empty piece, so at most one per piece |
| UserProfile.Badge | frontend/app/customer/components/UserProfile.tsx:56 | "?" without a user, otherwise the initials |
| UserProfile.ProfileMenu.constructor | frontend/app/customer/components/UserProfile.tsx:8-9 | no user and the dropdown closed |
| UserProfile.ProfileMenu.LoadUser | frontend/app/customer/components/UserProfile.tsx:14-19 | the stored user is loaded when there is one |
| UserProfile.ProfileMenu.ToggleDropdown | frontend/app/customer/components/UserProfile.tsx:52 | the dropdown flips |
| UserProfile.ProfileMenu.HandleLogout | frontend/app/customer/components/UserProfile.tsx:42-45 | only the "user" entry is removed, and the route is "/auth" |
| SignIn.RouteFor | frontend/app/auth/page.tsx:42-57 | customer, kitchen, waiter and admin go to their pages; no other role has a route |
| SignIn.RejectionMessage | frontend/app/auth/page.tsx:36 | the detail when present and non-empty, else "Authentication failed" |
| SignIn.SubmitOutcome | frontend/app/auth/page.tsx:28-59 | a route iff accepted with a known role; an error exactly when there is no route; an accepted user is stored even with an invalid role, which gives "Invalid role" |
| SignIn.AuthForm.constructor | frontend/app/auth/page.tsx:15-16 | no error and not loading |
| SignIn.AuthForm.HandleSubmit | frontend/app/auth/page.tsx:23-63 | loading always ends false; the error and the route are those of SubmitOutcome; an accepted user is stored |

## Left out

- Database access, SQL execution and psycopg2 connections. Lookups are maps, and a failing query is a boolean parameter.
- bcrypt hashing. It is a function parameter `checkpw`.
- The language-model call in `club_orders`. Only its reply's post-processing is modelled.
- The clock and randomness: the daily scratch-card prompt and its random card, `new Date()` (now a parameter), and `datetime.now()` (a parameter).
- `round(…, 2)`, `toFixed`, and `parseFloat` of text fields. Money is an unbounded `real`; tax and packaging are already-parsed numbers, with None for NaN.
- Pydantic's lax coercion. `ParseGroup` accepts only JSON numbers with an integral value for `int` fields and JSON strings for `str` fields; a numeric string such as "3" is rejected.
- JSON text parsing and serialisation of local storage, and `localStorage` as a mechanism. Storage is a field holding the parsed value.
- Unicode case mapping. `toLowerCase`, `toUpperCase` and `.upper()` are modelled on ASCII letters only.
- React rendering, toasts, router navigation as a mechanism (the target route is a field), and fetch/axios. Responses are parameters, and a failure is None.
- The FastAPI route wrappers and app wiring. They only pass through to the database helpers.
- MenuAdmin.MenuPage.HandleEditSave: the menu refresh it starts is not awaited; it is the separate `FetchMenuItems` call.
- MenuAdmin.Fetched: a response that is not an array of arrays counts as a failure. In the source, such a payload either throws (and empties the menu) or yields undefined cells.
- MenuAdmin.Searched: requires every name to be a string; the source throws on any other name.
- SignIn.SubmitOutcome: an ok response without a `user` field is not modelled; the source throws a TypeError whose message is engine-specific.
- UserProfile.ProfileMenu.LoadUser: the stored JSON text is represented by the name it carries, and its truthiness test by the key being present.
- MenuCardView.MenuCard.SelectVariant: requires a key of the item's variations, since the selector offers only those.
- AdminOrders.ElapsedMinutes: the contract describes past creation times only; for future ones the formula is still modelled exactly.
