# A verified model of the storefront's core

This project models, in Dafny, the logic of a small digital-goods storefront:

- its client-side stores: cart, products, categories, sub-categories, currency, user and UI preferences;
- the derived views its pages compute: the marketplace, categories, checkout, order history, the cart badge and the payment-success poll;
- the session synchroniser;
- its three server routes: the payment route, the payment provider's callback and the identity provider's webhook.

Every store action is a pure `state -> state` function. The browser's `localStorage` is a `map<string, string>` that actions take and return. The clock (`Date.now()`) is an integer input.

Each route handler is a function of its request and of the replies it would get. It returns a response status and the ordered list of outbound calls it makes (effects). The back office's tables are a value that the handler's effects update. `fulfillment.dfy` follows one purchase across the pieces:

1. the checkout posts the cart;
2. the payment route writes `"<fileId>:<productId>"` into each invoice item's category;
3. the callback decodes it back into the buyer's `purchased` relation and delivers the files;
4. the next session sync loads the owned file ids into the user store.

Shared vocabulary lives in four helper modules:

- `Wrappers`: `Option`, and JavaScript truthiness for optional strings.
- `Text`: ASCII lower-casing, substring search, splitting at a character, and decimal printing and parsing.
- `Seqs`: duplicate-freedom, first-occurrence de-duplication, filtering, and sums.
- `Keyed`: keyed insert and update over sequences of records.

Three behaviours of the program are modelled as they are written. Lemmas state their consequences:

- **Double conversion.**
  - The checkout posts the total already converted to the selected currency (`checkout.tsx:95`).
  - The order history multiplies the stored amount by the rate again (`orders.tsx:35`).
  - `Fulfillment.HistoryShowsTwiceConverted` proves the history shows the canonical total times the rate twice.
- **Canonical line prices beside a converted total.**
  - The posted order lines carry canonical prices (`checkout.tsx:89`) beside the converted total.
  - `Checkout.PayloadCarriesCanonicalPrices` proves the lines add up to the posted amount only when the rate is 1 or the cart is empty.
- **Two readings of the `purchased` relation.**
  - The session synchroniser reads each entry's file id, `productId` (`AuthSync.tsx:45`).
  - The callback reads and writes numeric ids, `id` (`xendit-webhook.ts:76`).
  - `BackOffice.Populate` models how the back office resolves stored numeric ids to entries that carry both fields.
  - `StrapiUsers.ReadingsAgree` and `Fulfillment.PaidProductReachesLibrary` connect the two readings.

## Model

| member | source | states |
|---|---|---|
| CartStore.AddItem | src/lib/cart-store.ts:24-49 | Three cases by whether the cart already holds the product. New: one line with quantity 1 is appended. Held and digital: the state is returned unchanged. Held and physical: every line for it gains exactly one unit and every other line is identical. |
| CartStore.RemoveItem | src/lib/cart-store.ts:53-58 | No line for the product is left. Every other line stays. The result is a subsequence of the old lines, in order. The panel flag is kept. |
| CartStore.Adjust | src/lib/cart-store.ts:65-75 | A positive change to a digital line is refused. Otherwise the quantity moves by the amount, floored at zero. |
| CartStore.UpdateQuantity | src/lib/cart-store.ts:61-79 | No line with a non-positive quantity survives. A line for another product stays exactly when its quantity is positive. The panel flag is kept. |
| CartStore.SetIsOpen | src/lib/cart-store.ts:82-84 | Only the panel flag changes; the lines are kept. |
| CartStore.ClearCart | src/lib/cart-store.ts:87-92 | No lines are left and the panel flag is kept. |
| CartStore.AddHeldSplice | src/lib/cart-store.ts:30-41 | In a cart with one line per product, re-adding a held physical product bumps its line by one and keeps every line before and after it, in place. |
| CartStore.AddItemLines | src/lib/cart-store.ts:26-48 | Read as a map from product id to line, `addItem` inserts quantity 1, leaves a held digital product alone, or adds one unit to a held physical product. |
| CartStore.RemoveItemLines | src/lib/cart-store.ts:53-58 | On a ledger with one line per product, `removeItem` deletes exactly that key from the map. |
| CartStore.UpdateQuantityLines | src/lib/cart-store.ts:61-79 | On the map: an absent product, or a positive change to a digital line, changes nothing. Otherwise the entry takes quantity q + amount, or is deleted when that is not positive. |
| CartStore.AddItemWellFormed | src/lib/cart-store.ts:26-48 | Suppose every line is for a distinct product, quantities are positive, and digital lines hold 1. Then `addItem` keeps all three, when the product's digital flag agrees with the line already held. |
| CartStore.AddItemDisagreeingFlag | src/lib/cart-store.ts:30-68 | Without that agreement the digital rule breaks: a physical copy raises a digital line to 2. The reason is that `addItem` tests the argument's flag and `updateQuantity` tests the stored line's. |
| CartStore.RemoveItemWellFormed | src/lib/cart-store.ts:53-58 | `removeItem` preserves the three ledger invariants. |
| CartStore.UpdateQuantityWellFormed | src/lib/cart-store.ts:61-79 | `updateQuantity` preserves the three ledger invariants, for any amount. |
| CartStore.RepeatedAddDigital | src/lib/cart-store.ts:30-48 | Adding a digital product n ≥ 1 times to a cart without it leaves one line with quantity 1. |
| CartStore.RepeatedAddPhysical | src/lib/cart-store.ts:34-48 | Adding a physical product n ≥ 1 times to a cart without it leaves one line with quantity n. |
| CartStore.DecrementToZeroRemoves | src/lib/cart-store.ts:72-77 | Lowering a line by its whole quantity deletes it from the ledger. |
| ProductStore.SetProducts | src/lib/product-store.ts:28-34 | The list is replaced wholesale and stamped with the clock input. The loading flag is untouched. |
| ProductStore.AddProduct | src/lib/product-store.ts:36-48 | A product whose id is present is ignored; otherwise it is appended. Unique ids stay unique. |
| ProductStore.UpdateProduct | src/lib/product-store.ts:51-58 | Each product with that id has the patch's given fields overwritten. Every other product, the order and the length are kept. |
| ProductStore.ResetStore | src/lib/product-store.ts:60-66 | The store is back to empty, idle and never loaded. |
| ProductStore.SetLoading | src/lib/product-store.ts:68-70 | Only the loading flag changes. |
| ProductStore.UpdateProductKeepsUnique | src/lib/product-store.ts:51-58 | A patch that does not set `productId` keeps product ids unique. |
| ProductStore.UpdateProductCanDuplicateIds | src/lib/product-store.ts:36-58 | A patch that sets `productId` can merge two products under one id. Unlike `addProduct`, the update does not guard the key. |
| CategoryStore.SetCategories | src/lib/category-store.ts:34-40 | The list is replaced wholesale and stamped with the clock input. The loading flag is untouched. |
| CategoryStore.AddCategory | src/lib/category-store.ts:43-55 | A category whose id is present is ignored; otherwise it is appended. Unique ids stay unique. |
| CategoryStore.UpdateCategory | src/lib/category-store.ts:58-65 | Each category with that id is patched; the others, the order and the length are kept. |
| CategoryStore.ResetStore | src/lib/category-store.ts:68-74 | The store is back to empty, idle and never loaded. |
| CategoryStore.SetLoading | src/lib/category-store.ts:77-79 | Only the loading flag changes. |
| CategoryStore.UpdateCategoryKeepsUnique | src/lib/category-store.ts:58-65 | A patch that does not set `categoryId` keeps category ids unique. |
| SubCategoryStore.SetSubCategories | src/lib/sub-category-store.ts:27-33 | The list is replaced wholesale and stamped with the clock input. The loading flag is untouched. |
| SubCategoryStore.AddSubCategory | src/lib/sub-category-store.ts:36-48 | A sub-category whose id is present is ignored; otherwise it is appended. Unique ids stay unique. |
| SubCategoryStore.UpdateSubCategory | src/lib/sub-category-store.ts:51-58 | Each sub-category with that id is patched; the others, the order and the length are kept. |
| SubCategoryStore.ResetStore | src/lib/sub-category-store.ts:61-67 | The store is back to empty, idle and never loaded. |
| SubCategoryStore.SetLoading | src/lib/sub-category-store.ts:70-72 | Only the loading flag changes. |
| SubCategoryStore.UpdateSubCategoryKeepsUnique | src/lib/sub-category-store.ts:51-58 | A patch that does not set `subCategoryId` keeps sub-category ids unique. |
| CurrencyStore.BuildMapSpec | src/lib/currency-store.ts:43-49 | The map's keys are exactly the delivered codes. Each entry is filed under its own code. The entry for a code is the last configuration that carries it. |
| CurrencyStore.FirstDefault | src/lib/currency-store.ts:54 | Finds the first configuration marked default, with none before it, or reports that none is marked. |
| CurrencyStore.DefaultConfig | src/lib/currency-store.ts:18-54 | The default is the first configuration marked default. Failing that it is the first configuration, and for an empty list it is the built-in PHP fallback at rate 1. |
| CurrencyStore.SetAvailableCurrencies | src/lib/currency-store.ts:42-79 | Covers the first load and later syncs; loading is over afterwards. First load: the remembered non-empty code is selected if still offered, else the default. Later sync: the current code is kept if still offered, else the default. |
| CurrencyStore.SetCurrency | src/lib/currency-store.ts:81-94 | An unknown code changes neither the store nor storage. A known code becomes current and is written under `user-currency`; every other storage key is untouched. |
| CurrencyStore.InitialCurrentOffered | src/lib/currency-store.ts:18-39 | In the initial store the selected currency is on offer under its own code. |
| CurrencyStore.SyncSelectsOffered | src/lib/currency-store.ts:42-79 | After any non-empty delivery the selected currency is one of the delivered configurations, and its code is on offer. |
| CurrencyStore.SyncKeepsCurrentOffered | src/lib/currency-store.ts:42-79 | With distinct codes, the selection is exactly the offered entry for its code. |
| CurrencyStore.EmptySyncOffersNothing | src/lib/currency-store.ts:42-79 | An empty first delivery offers nothing while the fallback stays selected. |
| CurrencyStore.SetCurrencyProperties | src/lib/currency-store.ts:81-94 | Selecting a known code keeps the selection offered, and selecting it again changes nothing. |
| CurrencyStore.ChoiceSurvivesReload | src/lib/currency-store.ts:28-94 | A non-empty choice made with `setCurrency` is the selection of a fresh store's first sync, when that code is still offered. |
| CurrencyStore.ResyncKeepsChoice | src/lib/currency-store.ts:67-70 | A later sync keeps the current code while it is still offered. |
| UserStore.SetUser | src/lib/user-store.ts:27-40 | The record is replaced by the given one and marked loaded. A missing `blocked` reads as not blocked. |
| UserStore.ClearUser | src/lib/user-store.ts:11-47 | Back to no email, no id, no purchases, not blocked and not loaded. |
| UserStore.SetBlocked | src/lib/user-store.ts:52-54 | Only the blocked flag changes. |
| UserStore.AddPurchase | src/lib/user-store.ts:60-68 | An owned id changes nothing; a new one is appended. Afterwards the ids are the old ones plus this one. |
| UserStore.AddPurchaseIdempotent | src/lib/user-store.ts:60-68 | Adding the same purchase twice is adding it once. |
| UserStore.AddPurchaseKeepsDistinct | src/lib/user-store.ts:60-68 | A duplicate-free list of owned ids stays duplicate-free. |
| UserStore.AddPurchasesIsDedup | src/lib/user-store.ts:60-68 | A run of `addPurchase` calls is first-occurrence de-duplication of the owned ids followed by the new ones. Email and blocked flag are kept. |
| UserStore.AddPurchasesMatchesMerge | src/lib/user-store.ts:60-68 | From a duplicate-free list, a run of `addPurchase` calls equals `Array.from(new Set([...owned, ...ids]))`. |
| UiStore.ParseTheme | src/lib/ui-store.ts:56-57 | Only "light" and "dark" are accepted, each as the theme of that name. |
| UiStore.ParseViewMode | src/lib/ui-store.ts:62-92 | Only "grid" and "list" are accepted, each as the layout of that name. |
| UiStore.NamesParse | src/lib/ui-store.ts:22-57 | Every theme and layout name written is read back as itself. |
| UiStore.WithViewMode | src/lib/ui-store.ts:30-51 | One page's layout is set; the other pages' layouts, the theme and the sidebar are kept. |
| UiStore.SetTheme | src/lib/ui-store.ts:22-27 | The theme changes and its name is stored under `ui-theme`; no other key changes. |
| UiStore.SetViewMode | src/lib/ui-store.ts:30-51 | The page's layout changes and its name is stored under that page's key; no other key changes. |
| UiStore.SetSidebar | src/lib/ui-store.ts:96-98 | Only the sidebar flag changes, and nothing is stored. |
| UiStore.Hydrate | src/lib/ui-store.ts:53-94 | Each preference with a valid stored name takes it; a missing or unrecognised value leaves it as it was. The sidebar is untouched. |
| UiStore.HydrateIdempotent | src/lib/ui-store.ts:53-94 | Hydrating twice from the same storage is hydrating once. |
| UiStore.PreferencesSurviveReload | src/lib/ui-store.ts:13-94 | Theme and layouts written by the setters come back in a fresh store hydrated from that storage. |
| UiStore.HydrateIgnoresGarbage | src/lib/ui-store.ts:53-94 | Stored values that are not valid names change nothing. |
| CartBadge.TotalAtLeastLines | src/components/CartBadge.tsx:8 | With positive quantities the unit count is at least the number of lines, and equals it when every line holds one unit. |
| CartBadge.VisibleIffNonEmpty | src/components/CartBadge.tsx:8-10 | For a cart the store can produce, the badge shows exactly when the cart has lines. |
| CartBadge.TotalReorder | src/components/CartBadge.tsx:8 | The count does not depend on the order of the lines. |
| CartBadge.TotalAddItem | src/components/CartBadge.tsx:8 | Adding a new product adds one unit; re-adding a held digital product adds none. Re-adding a held physical product, in a cart with one line per product, adds exactly one unit. |
| CartBadge.ClearHides | src/components/CartBadge.tsx:10 | An emptied cart hides the badge. |
| Checkout.SubtotalReorder | src/routes/_authed/checkout.tsx:55-58 | The subtotal does not depend on the order of the lines. |
| Checkout.SubtotalAddItem | src/routes/_authed/checkout.tsx:55-58 | Adding a new product raises the subtotal by its price; re-adding a held digital product leaves it alone. Re-adding a held physical product, in a cart with one line per product, raises it by the price stored on the held line, not the price passed in. |
| Checkout.HandleIncrement | src/routes/_authed/checkout.tsx:68-74 | A held digital line raises the limit warning for that product and leaves the cart. Any other line goes through `updateQuantity(productId, 1)`. |
| Checkout.IncrementMatchesStore | src/routes/_authed/checkout.tsx:68-74 | On a line of a well-formed cart the page's guard agrees with the store's. A digital line leaves the cart as it was, and a physical line's ledger entry gains one unit. |
| Checkout.InitialEmail | src/routes/_authed/checkout.tsx:42-46 | The field takes the synchronised email once the user record is loaded and the email is non-empty, and keeps its value otherwise. |
| Checkout.ToPayload | src/routes/_authed/checkout.tsx:85-91 | Each posted line carries the product's numeric id, file id, canonical price and quantity. |
| Checkout.BuildRequest | src/routes/_authed/checkout.tsx:85-99 | The posted amount is the subtotal times the rate and the currency is its code. There is one line per cart line, in order. |
| Checkout.HandlePayment | src/routes/_authed/checkout.tsx:76-127 | An empty email posts nothing. Otherwise the order is posted. The browser is redirected iff the reply is ok, JSON and carries an invoice link; every other reply, or a network failure, ends in an alert and re-enables the button. |
| Checkout.EnabledPaymentPosts | src/routes/_authed/checkout.tsx:129-287 | Pressing the enabled button always posts an order with at least one line. |
| Checkout.PayloadCarriesCanonicalPrices | src/routes/_authed/checkout.tsx:55-99 | The posted lines total the canonical subtotal. They equal the posted amount iff the rate is 1 or the subtotal is 0. |
| Checkout.CheckoutScenario | src/routes/_authed/checkout.tsx:55-99 | An ebook at 20 plus a mug added twice, at a rate of 58, posts 2320. |
| OrdersView.DisplayedOrders | src/routes/_authed/orders.tsx:40-47 | An order is shown iff its decimal id contains the lower-cased search or its lower-cased reference equals it. Store order is kept. |
| OrdersView.EmptySearchShowsAll | src/routes/_authed/orders.tsx:40-47 | The empty search shows every order. |
| OrdersView.SearchById | src/routes/_authed/orders.tsx:44 | Typing an order's id finds it. |
| OrdersView.SearchByTransaction | src/routes/_authed/orders.tsx:45 | Typing an order's reference in any letter case finds it. |
| OrdersView.TransactionIsExactMatch | src/routes/_authed/orders.tsx:45 | The reference is compared whole: part of a reference does not find it. |
| OrdersView.CompletedBadge | src/routes/_authed/orders.tsx:242-243 | The badge reads completed iff the status is "completed" in any letter case, and never for a missing status. |
| OrdersView.Render | src/routes/_authed/orders.tsx:49-55 | With no orders the empty state shows whatever the search; otherwise the filtered list shows. |
| OrdersView.ShownAmountConvertsTwice | src/routes/_authed/orders.tsx:31-36 | An amount stored already converted is shown as canonical × rate × rate. That differs from the charge unless the rate is 0 or 1 or the total is 0. |
| CartView.MapCurrency | src/routes/_authed/cart.tsx:87-94 | Code, rate and default flag are copied; an absent or zero precision becomes 2. |
| CartView.MapSubCategory | src/routes/_authed/cart.tsx:100-104 | A missing or empty description becomes "Premium Digital Asset". |
| CartView.Thumbnail | src/routes/_authed/cart.tsx:117-121 | The small format under the base URL, else the original under it, else the empty string. |
| CartView.MapProduct | src/routes/_authed/cart.tsx:110-126 | A missing price is 0 and an empty relation gives an empty sub-category. `hasPurchased` holds iff the user owns the file id. |
| CartView.Sync | src/routes/_authed/cart.tsx:85-129 | Currencies reach the store only when at least one was loaded. Sub-categories and products are replaced one for one, in order. |
| CartView.SyncKeepsSelectionOffered | src/routes/_authed/cart.tsx:85-96 | When currencies were loaded, or the selected code was already offered, the selected code is offered after the sync: an empty currency list is never handed to the store. |
| CartView.DisplayedProducts | src/routes/_authed/cart.tsx:141-149 | A product is listed iff it is in the chosen sub-category (when one is chosen) and its lower-cased name contains the lower-cased search. Store order is kept. |
| CartView.NoFilterShowsAll | src/routes/_authed/cart.tsx:141-149 | With no sub-category and no search every product is listed. |
| CartView.ChosenSubCategoryOnly | src/routes/_authed/cart.tsx:142-144 | A chosen sub-category lists only its own products. |
| CartView.SelectorAfterSync | src/routes/_authed/cart.tsx:159-160 | After a sync that loaded two distinct codes, the currency selector shows. |
| CartView.NoSelectorForOneCode | src/routes/_authed/cart.tsx:159-160 | With a single code loaded, however often, the selector stays hidden. |
| CartView.Render | src/routes/_authed/cart.tsx:151-160 | With no sub-categories the empty store shows. Otherwise the filtered listing shows, with the selector flag. |
| CategoriesView.FormatSub | src/routes/_authed/categories.tsx:52-58 | A missing or empty description becomes "". |
| CategoriesView.SubsOf | src/routes/_authed/categories.tsx:71-79 | A category lists at most as many sub-categories as were loaded. |
| CategoriesView.SubsOfIsFilter | src/routes/_authed/categories.tsx:71-79 | A category's k-th entry is the id and name of the k-th loaded sub-category pointing at it. Order and repeats are kept, and those sub-categories appear in load order. |
| CategoriesView.SubsOfMembers | src/routes/_authed/categories.tsx:71-79 | A category lists exactly the loaded sub-categories whose category is it, as id and name. |
| CategoriesView.SubsOfDisjoint | src/routes/_authed/categories.tsx:71-79 | Two different categories never share a sub-category; together they list no more than were loaded. |
| CategoriesView.OrphanListedNowhere | src/routes/_authed/categories.tsx:73 | A sub-category without a category is listed under none. |
| CategoriesView.FormatCategory | src/routes/_authed/categories.tsx:64-80 | A missing or empty description becomes "Premium Digital Asset", and the subs are the grouping above. |
| CategoriesView.Sync | src/routes/_authed/categories.tsx:48-84 | Nothing happens unless both lists were loaded. Then both stores are replaced one for one, in order, at the clock input. |
| CategoriesView.SyncedSubsAreStored | src/routes/_authed/categories.tsx:52-82 | Every sub-category a category lists is also in the sub-category store, with the same id and name. |
| CategoriesView.HandleSelect | src/routes/_authed/categories.tsx:86-94 | Navigates iff the id is non-empty, and then to the marketplace filtered to that id. |
| CategoriesView.SelectedListingIsFiltered | src/routes/_authed/categories.tsx:86-94 | Choosing a sub-category leads to a listing of only its products. |
| CategoriesView.Render | src/routes/_authed/categories.tsx:96-105 | With no categories the empty state shows; otherwise every stored category is listed. |
| StrapiUsers.ProductIds | src/components/AuthSync.tsx:44-45 | The owned file ids, one per relation entry, in order; none when the relation is absent. |
| StrapiUsers.NumericIds | src/routes/api/payment/xendit-webhook.ts:75-76 | The owned numeric ids, one per relation entry, in order; none when the relation is absent. |
| StrapiUsers.ReadingsAgree | src/components/AuthSync.tsx:45 | An entry's numeric id and its file id are both owned under the two readings. |
| AuthSync.FirstRecord | src/components/AuthSync.tsx:26-28 | An array reply gives its first element. Otherwise `data[0]` is taken, and failing that the object's own `0` entry. |
| AuthSync.SyncUser | src/components/AuthSync.tsx:14-63 | An incomplete session only clears the store. A ready one first looks the user up. A failed lookup does nothing more. A stored user always gets the session's email and id, and never together with a sign-out. |
| AuthSync.SyncOutcomes | src/components/AuthSync.tsx:30-60 | A blocked record leaves the store cleared and signs out to /blocked. An unblocked record loads its file ids, no record loads an empty library, and a failed lookup changes nothing. |
| AuthSync.NeverStoresBlocked | src/components/AuthSync.tsx:32-52 | Starting from an unblocked store, no lookup answer leaves a blocked user stored after a sync. |
| AuthSync.IncompleteSessionClears | src/components/AuthSync.tsx:15-18 | An incomplete session ends with the initial store and no lookup. |
| PaymentSuccess.Mount | src/routes/_authed/payment-success.tsx:25-36 | The cart is emptied and the owned count is captured. Polling is armed only for a non-empty email. It records the email the polling effect ran with, and no earlier run. |
| PaymentSuccess.Observe | src/routes/_authed/payment-success.tsx:35-83 | After a store write the page is in step with the store's email. If the email changed, the current interval is cleared and the effect runs again: a fresh attempt count, polling iff the new email is truthy, and the cleared run's pending lookups kept as an earlier run. The spinner flag, the captured count and the number of lookups accounted for are unchanged. An unchanged email changes nothing. |
| PaymentSuccess.SettleEarlier | src/routes/_authed/payment-success.tsx:41-79 | An answer to a cleared run's lookup counts against that run's own attempts. A grown list is loaded and stops the spinner, and that run's fifteenth answer stops it too. The current run's counter, interval and pending lookups are untouched. |
| PaymentSuccess.SettleEarlierAccounts | src/routes/_authed/payment-success.tsx:41-79 | A cleared run's answer moves one lookup from pending to answered, so the lookups accounted for over all runs are unchanged. |
| PaymentSuccess.PolledRecord | src/routes/_authed/payment-success.tsx:49-51 | An array reply gives its first element, otherwise `data[0]`, with no further fallback. |
| PaymentSuccess.Tick | src/routes/_authed/payment-success.tsx:41-81 | An armed interval issues one more lookup each time it fires, whether or not earlier lookups have answered. A cleared interval issues none. |
| PaymentSuccess.Settle | src/routes/_authed/payment-success.tsx:47-78 | An answer counts one attempt and retires one pending lookup. A grown purchase list is loaded unblocked and stops the polling and the spinner. Polling continues iff it was on, the list has not grown, and fewer than 15 lookups have answered. Answers still arrive after the interval is cleared. |
| PaymentSuccess.RunAccounts | src/routes/_authed/payment-success.tsx:35-83 | For any order of firings, answers and store writes, the lookups issued equal the answers received plus the lookups still pending, over every run of the effect. A polling page has fewer than 15 answers in its current run. A page in step with the store stays in step. A stopped page that is never re-run issues no lookup. |
| PaymentSuccess.StoppedStaysIdle | src/routes/_authed/payment-success.tsx:75-83 | A stopped page with nothing pending in any run stays as it is, whatever firings and answers arrive, as long as no store write changes the email. With no store write the user store is untouched too. |
| PaymentSuccess.SlowBackendOverruns | src/routes/_authed/payment-success.tsx:41-81 | Firings with no answer in between each issue a lookup, without bound. |
| PaymentSuccess.MountedOverrun | src/routes/_authed/payment-success.tsx:35-81 | From a fresh mount with an email, sixteen firings before the first answer issue sixteen lookups, one more than the budget. |
| PaymentSuccess.SerialAnswerKeepsEmail | src/routes/_authed/payment-success.tsx:43-64 | An answer whose record carries the email the lookup asked for writes that same email back, so the page stays in step and the effect does not re-run. |
| PaymentSuccess.RunWithinBudget | src/routes/_authed/payment-success.tsx:73-81 | When each lookup answers before the next firing with a record under the polled email, a polling page issues no more lookups than its remaining attempts. A stopped page issues none. |
| PaymentSuccess.MountedPollBudget | src/routes/_authed/payment-success.tsx:27-83 | From mount, when each lookup answers before the next firing with a record under the polled email, at most 15 lookups are issued. Without an email, and with no store write that changes it, none is issued for any order of events and the spinner keeps spinning. |
| PaymentSuccess.LateUserStartsPolling | src/routes/_authed/payment-success.tsx:21-83 | A page mounted before the store has an email does not poll at first. Once the email is written the effect re-runs and issues a lookup. The first answer listing more purchases than the count captured at mount stops the spinner and is loaded unblocked. |
| PaymentSuccess.EmptyStoreStopsOnAnyPurchase | src/routes/_authed/payment-success.tsx:27-67 | Mounted on the empty store, the page captures a count of 0. So after the email arrives, the first answer listing any purchase, an earlier one included, stops the spinner, whether or not this payment has been recorded. |
| PaymentSuccess.FailuresExhaustBudget | src/routes/_authed/payment-success.tsx:69-78 | Failed lookups answered one at a time, up to the budget, stop the polling and the spinner. They leave the user store untouched and each issues a lookup. |
| XenditPayment.Round | src/routes/api/payment/xendit-payment.ts:102-111 | `Math.round`: the result is within half a unit, halves rounding up. |
| XenditPayment.EncodeCategory | src/routes/api/payment/xendit-payment.ts:113 | The category starts with the file id and a colon. |
| XenditPayment.CategorySplits | src/routes/api/payment/xendit-payment.ts:113 | For a file id without a colon, splitting at the first colon gives back the file id and the printed numeric id. |
| XenditPayment.ToInvoiceItem | src/routes/api/payment/xendit-payment.ts:108-114 | An invoice item carries the name, the quantity, the rounded canonical price and the encoded category. |
| XenditPayment.LinkedUser | src/routes/api/payment/xendit-payment.ts:26-27 | The first id the lookup returned, or none for an empty reply. |
| XenditPayment.BuildInvoice | src/routes/api/payment/xendit-payment.ts:100-115 | The invoice has the external id, the rounded posted amount, the email and the currency, and one item per posted line, in order. |
| XenditPayment.Handle | src/routes/api/payment/xendit-payment.ts:16-133 | The user lookup comes first, then the pending order with the posted amount. A refused order answers 500 with nothing further. Otherwise one order item per line in order, then the invoice, then 200 with its link. |
| XenditPayment.SharedExternalId | src/routes/api/payment/xendit-payment.ts:16-101 | The order and the invoice carry the same external id. |
| XenditPayment.ExternalIdsDiffer | src/routes/api/payment/xendit-payment.ts:16 | Different clock readings give different external ids. |
| XenditPayment.InvoiceAmountClose | src/routes/api/payment/xendit-payment.ts:102 | The invoice amount is within half a unit of the posted amount. |
| BackOffice.OrdersWithTransaction | src/routes/api/payment/xendit-webhook.ts:29-33 | The orders found are exactly those with that transaction id. |
| BackOffice.UsersWithEmail | src/routes/api/payment/xendit-webhook.ts:66-71 | The users found are exactly those with that email. |
| BackOffice.UpdateOrder | src/routes/api/payment/xendit-webhook.ts:37-51 | Only orders with that document id change, and each takes the patch; fields the patch leaves undefined keep their values. |
| BackOffice.UpdateClearsTransaction | src/routes/api/payment/xendit-webhook.ts:35-51 | When one order alone carries a transaction id, giving its document another transaction id leaves no order carrying the old one. |
| BackOffice.UpdatePurchased | src/routes/api/payment/xendit-webhook.ts:101-110 | Only users with that id change, and only in their `purchased` relation. |
| BackOffice.ProductById | src/routes/api/payment/xendit-webhook.ts:67 | Finds a product with that id, or reports that none has it. |
| BackOffice.PopulateIds | src/routes/api/payment/xendit-webhook.ts:67 | The populated relation has at most one entry per stored id. |
| BackOffice.PopulateIdsMembers | src/routes/api/payment/xendit-webhook.ts:67-76 | An entry appears iff its id is stored and refers to a product with that file id. |
| BackOffice.Populate | src/routes/api/payment/xendit-webhook.ts:67-71 | The record as read with its relation populated keeps the user's id, email, identity-provider id and blocked flag. |
| XenditWebhook.DecodeCategory | src/routes/api/payment/xendit-webhook.ts:81-90 | A decoded id comes from a non-empty category with a colon. It is the number between the first and second colon. |
| XenditWebhook.NewProductIds | src/routes/api/payment/xendit-webhook.ts:80-90 | There are at most as many new ids as items. |
| XenditWebhook.NewProductIdsMembers | src/routes/api/payment/xendit-webhook.ts:80-90 | An id is new iff some item's category decodes to it. |
| XenditWebhook.MergePurchased | src/routes/api/payment/xendit-webhook.ts:93-95 | The merge has no duplicates and holds exactly the existing and the new ids. |
| XenditWebhook.MergePurchasedIdempotent | src/routes/api/payment/xendit-webhook.ts:93-95 | Merging the same new ids again changes nothing. |
| XenditWebhook.DecodeScenario | src/routes/api/payment/xendit-webhook.ts:82-90 | Items with categories "F3:3" and "F8:8" name products 3 and 8. |
| XenditWebhook.MergeScenario | src/routes/api/payment/xendit-webhook.ts:93-95 | Owning 3 and buying 3 and 8 ends with 3 then 8. |
| XenditWebhook.FileIdOf | src/routes/api/payment/xendit-webhook.ts:144 | The file id is the category's prefix before any colon. |
| XenditWebhook.Deliver | src/routes/api/payment/xendit-webhook.ts:142-185 | There is one grant per link, to the buyer, for a non-empty file id, linking that file whether or not the grant succeeds. The loop completes iff every item has a category. |
| XenditWebhook.DeliverEveryItem | src/routes/api/payment/xendit-webhook.ts:142-185 | When every item has a non-empty file id, each yields exactly its own link, in order. |
| XenditWebhook.CompleteOrder | src/routes/api/payment/xendit-webhook.ts:29-52 | The first order with the external id is completed with the payment id, paid time and channel. With none, only the lookup happens. |
| XenditWebhook.OrderStep | src/routes/api/payment/xendit-webhook.ts:29-52 | The lookup always comes first. With a match and a lookup that answered with `data`, the first match's update is sent. It is applied only when the update is served: an update that rejects, or that the back office answers with a non-OK status, leaves the order table as it was. With no match, a failed lookup or a reply without `data`, nothing else is sent and no order changes. |
| XenditWebhook.RecordPurchase | src/routes/api/payment/xendit-webhook.ts:62-113 | A user found by email gets the merge of the numeric ids they own and the decoded new ids. With no user, only the lookup happens. |
| XenditWebhook.DeliveryEffects | src/routes/api/payment/xendit-webhook.ts:122-220 | Only grants and the mail. The mail goes out iff there were items, the loop completed and it built a link. |
| XenditWebhook.DeliveryStep | src/routes/api/payment/xendit-webhook.ts:55-223 | Only user calls, grants and the mail. Without a buyer email nothing is sent and no user changes. |
| XenditWebhook.DeliveryUsers | src/routes/api/payment/xendit-webhook.ts:61-120 | With a buyer email, the first user under it gets the merge of the ids it owns and the new ids. With no such user, no user is written. |
| XenditWebhook.DeliveryMail | src/routes/api/payment/xendit-webhook.ts:55-191 | The mail goes out iff there were items and a buyer email, the loop completed, and it built a link. A reply without `data` and no payer email counts as no buyer email. |
| XenditWebhook.Handle | src/routes/api/payment/xendit-webhook.ts:11-233 | A wrong or missing token answers 401 with no call. A status other than PAID answers 200 with no call. PAID starts with the order lookup. It answers 500 iff the lookup failed or the update of a found order rejected, and then the back office is unchanged and only order calls were made. Otherwise it answers 200, also when the order update got a non-OK reply. |
| XenditWebhook.OrderRule | src/routes/api/payment/xendit-webhook.ts:29-52 | For PAID with the order calls served, exactly the first matching order is updated and no other order changes. With no match, a failed lookup or a reply without `data`, no order is written. A failed update, or one answered with a non-OK status, is sent but changes nothing. |
| XenditWebhook.PurchaseRule | src/routes/api/payment/xendit-webhook.ts:29-113 | For PAID with no failed order call, a buyer email and a user, that user's relation becomes the merge. Otherwise no user is written. Products never change. |
| XenditWebhook.MailRule | src/routes/api/payment/xendit-webhook.ts:29-191 | The mail goes out iff no order call failed, there were items and a buyer email, the loop completed, and it built a link. |
| XenditWebhook.RedeliveryFindsNoOrder | src/routes/api/payment/xendit-webhook.ts:26-52 | Suppose one order carried the external id and the payment id differs from it. After a first delivery whose order calls went through, no order carries the external id. A redelivery then writes no order, however its own calls go. |
| XenditWebhook.OrderStepIsHandlersTable | src/routes/api/payment/xendit-webhook.ts:29-52 | For a PAID callback, the order table the handler leaves is exactly the one the order step yields, for every outcome of the order calls. |
| XenditWebhook.RefusedUpdateLeavesOrderPending | src/routes/api/payment/xendit-webhook.ts:35-51 | When the order update is answered with a non-OK status, the handler still answers 200 and sends the update, but the order table is unchanged. A redelivery finds the same orders again and, when its update is served, completes the first match. |
| ClerkWebhook.IdTail | src/routes/api/webhooks/clerk.ts:43 | The last four characters of the id, or all of a shorter id. |
| ClerkWebhook.Username | src/routes/api/webhooks/clerk.ts:43 | A non-empty username is kept. Otherwise the result is the email's part before "@" followed by the id's tail. |
| ClerkWebhook.Handle | src/routes/api/webhooks/clerk.ts:7-78 | A falsy secret answers 500 and a failed signature 400, both with no call. Other events answer 200 with no call. A created user with no email throws. Otherwise one user creation; a JSON refusal is mirrored with its status, and a network failure or a non-JSON refusal answers 500. |
| ClerkWebhook.FallbackScenario | src/routes/api/webhooks/clerk.ts:42-43 | jo@x.io with id user_XYZ9 and no username becomes joXYZ9. |
| ClerkWebhook.FallbackCollides | src/routes/api/webhooks/clerk.ts:43 | Two accounts sharing the email's local part and the id's last four characters get the same fallback username. |
| Fulfillment.CallbackItems | src/routes/api/payment/xendit-payment.ts:108-114 | The callback echoes each invoice item's name and category. |
| Fulfillment.PostedIds | src/routes/_authed/checkout.tsx:86 | The posted lines' numeric ids, in order. |
| Fulfillment.CategoryRoundTrip | src/routes/api/payment/xendit-payment.ts:113 | For a file id without a colon, the callback reads back the file id. It decodes a non-negative id as itself and drops a negative one. |
| Fulfillment.InvoiceRoundTrip | src/routes/api/payment/xendit-webhook.ts:80-90 | The callback for an invoice the payment route built names exactly the posted products, in order. |
| Fulfillment.InvoiceDelivers | src/routes/api/payment/xendit-webhook.ts:142-185 | Such a callback delivers every posted line with the link to its own file, in order. |
| Fulfillment.SyncLoadsOwned | src/components/AuthSync.tsx:44-52 | An unblocked record that owns a file id loads it into the user store. |
| Fulfillment.PaidProductReachesLibrary | src/routes/api/payment/xendit-webhook.ts:73-110 | After a PAID callback naming product n whose order calls did not fail, the buyer's record owns n. Read back populated it lists n's file id, and the next sync of an unblocked buyer loads that file id. |
| Fulfillment.RecordedConverted | src/routes/api/payment/xendit-payment.ts:42 | The pending order recorded for a checkout carries the cart total times the rate. |
| Fulfillment.HistoryShowsTwiceConverted | src/routes/_authed/orders.tsx:35 | An order recorded from a checkout shows canonical × rate × rate. That equals the stored amount only when the rate is 0 or 1 or the total is 0. |

## Left out

- **Browser and rendering.** Rendering markup, styling, `Intl.NumberFormat` formatting and the server-side `typeof window` guards are not modelled. Storage is always present.
- **Money arithmetic.** Money is an exact `real`, so floating-point rounding in sums and products is not modelled. `Math.round` is floor(x + 0.5).
- **Lower-casing.** `toLowerCase` is modelled on ASCII letters only; Unicode case mapping is not.
- **Number parsing.**
  - `Number(text)` is modelled for non-empty strings of decimal digits only.
  - A sign, whitespace, exponent or hexadecimal form counts as not a number. As a consequence, a negative numeric product id is dropped by the callback rather than stored.
- **Rich-text product details.** The array form of `details` is taken as already flattened to its first text.
- **The object form of `sub_category`.** The record's `sub_category` fallback to the object itself is taken as absent.
- **Missing records on the marketplace page.** Products and sub-categories are always taken as loaded there. `rate: Number(...)` is taken as a real.
- **Timers and effect re-runs.** The polling interval and the back office's answers are a sequence of events; the time between them is not modelled, and neither is the interval's cleanup on unmount. The digital-limit warning's timeout is only its product id. Effects re-running on dependency changes are not modelled, except the payment page's polling effect, which re-runs on a new email (`PaymentSuccess.Observe`). The store writes that trigger it are free events (`PaymentSuccess.Stored`), not the session sync's own run.
- **Randomness and secrets.**
  - `Math.random` (the placeholder password) is not modelled.
  - The request bodies' JSON parsing is not modelled: a body that is not JSON answers 500 in both payment routes.
  - The identity provider's signature check is an input.
- Checkout.HandlePayment: a reply with a JSON content type whose body is not valid JSON makes `response.json()` throw (`checkout.tsx:109`). The alert then shows the parser's message; the model reports the default failure text instead.
- **File grants and mail delivery.** Their outcomes are not inputs, because the handler ignores them.
- **Concurrency in the payment route.** The order items are created with `Promise.all`: every request is sent before any answer is awaited. They are modelled in posting order.
- **Error details in the payment route.** Its 500 answer's message and the invoice reply's other fields are not modelled.
- XenditPayment.Handle: the user lookup, the order items and the invoice request are taken as answered; only the order creation's refusal is an input. In the route, any of those calls rejecting, or replying with a body that is not JSON, reaches the outer catch and answers 500. In particular an order item refused with a non-JSON body makes `res.json()` reject, so `Promise.all` rejects and no invoice is created. An item refused with a JSON body is only logged.
- XenditWebhook.Handle: the user lookup and the user update are taken as answered. In the route their failure is caught by their own `try`, so no user is written, and the delivery still runs with a 200 answer. A non-OK HTTP status on the order update is not a failure, because the route does not check it; `XenditWebhook.OrderCalls.PutRefused` models it.
- PaymentSuccess.RunWithinBudget: the bound of fifteen lookups holds only when each lookup answers before the interval fires again (`PaymentSuccess.Serially`). With a slower back office more lookups are issued, as `PaymentSuccess.SlowBackendOverruns` shows; for any order of events `PaymentSuccess.RunAccounts` states the exact count, answers plus pending lookups.
- PaymentSuccess.MountedPollBudget: the bound of fifteen lookups is stated for a back office that answers each lookup before the next firing, for the reason given above, and whose replies carry the email the lookup filtered on (`PaymentSuccess.Filtered`). A record under another email is written to the store, which re-runs the effect and starts a new count of fifteen. A page mounted before the store has an email starts polling when the email arrives, against the count captured at mount (`PaymentSuccess.LateUserStartsPolling`).
- CartView.Sync: does not model the page-level loading states of the catalog queries. When currencies are loaded they are passed whole.
- PaymentSuccess.Settle: a lookup reply's record is read without `blocked`, as the page does.
- BackOffice.UpdateOrder: updates every row with the document id, not just one; document ids are unique in the back office.
