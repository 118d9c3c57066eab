# Storefront client state, modelled in Dafny

This project models the client-side logic of a small Next.js storefront:

- the persistence adapter over the browser's key-value store (`lib/storage.ts`);
- the authentication container (`auth-provider.tsx`);
- the cart container (`cart-provider.tsx`);
- the checkout page's pricing rule, redirect guard and simulated payment (`checkout-content.tsx`);
- the product listing's filter/search/sort pipeline and category labels (`products-content.tsx`);
- the calendar widget's month grid and selection rules (`calendar.tsx`).

The model is one Dafny module per source file, plus three shared modules:

- `Types` holds the records (`Product`, `CartItem`, `Order`, `User`).
- `Json` holds an abstract JSON domain.
- `Seqs` defines order-preserving subsequences, used to say that a filter keeps relative order.

A stored string is either `Serialized(doc)` or `Unparsable(chars)`. `Parse(Serialize(d)) == Some(d)`, and parsing unparsable text fails. This stands in for `JSON.stringify` and `JSON.parse` without modelling JSON syntax.

How the stateful parts are modelled:

- **The browser store** is the class `Storage.BrowserStorage`, with a `map<string, Text>` field. The const `inBrowser` stands for `isBrowser()`.
- **Each getter** is tied to a pure view: `CartView`, `OrdersView` or `UserView`. The lemmas are stated about these views.
- **The two React containers** are the classes `AuthProvider.AuthState` and `CartProvider.CartState`. Each mounting effect is an explicit method: `Hydrate`, `PersistOnChange` and `ClearOnLogout`.
- **The payment delay** is a queue of pending completions in `Checkout.CheckoutState`. `HandleCheckout` enqueues a snapshot of the items and total that the delayed closure captures. `CompletePayment` runs the head of the queue. The submit button is disabled while processing, so `HandleCheckout` requires `!isProcessing`. The invariant `Valid` then holds at most one pending completion, and the flag is up exactly while one is pending.
- **Money** is an exact `real`.
- **Dates** are integer day numbers counted from 1970-01-01 (a Thursday). Weeks start on Sunday, as in date-fns.
- **The engine's stable `Array.prototype.sort`** uses the comparator as an ascending key: price, minus price, or minus rating. It is modelled as a stable insertion sort on that key.

## Model

| member | source | states |
|---|---|---|
| `Json.Serialize` | lib/storage.ts:28 | What `JSON.stringify` writes is never the empty string that `safeParse` treats as missing |
| `Json.Parse` | lib/storage.ts:12-15 | Parsing fails exactly on text that is not a serialization |
| `Json.ParseSerialize` | lib/storage.ts:9-17 | Parsing what was serialized gives back the same document |
| `Storage.Lookup` | lib/storage.ts:23 | `getItem` gives a value exactly when the key is present, and that value is the stored one |
| `Storage.SafeParse` | lib/storage.ts:9-17 | The fallback is returned for a missing value, an empty value or a value that fails to parse; otherwise the parsed document is returned |
| `Storage.CartView` | lib/storage.ts:21-24 | Outside the browser, or with the key missing, the cart reads as `[]`; a non-empty cart read is exactly what is stored under the cart key |
| `Storage.OrdersView` | lib/storage.ts:37-40 | Same as `CartView`, for the order list under its own key |
| `Storage.UserView` | lib/storage.ts:50-53 | Outside the browser, or with the key missing, the user reads as `null`; a user read is exactly the stored user document |
| `Storage.BrowserStorage.constructor` | lib/storage.ts:7 | The store starts with the given entries, in or out of a browser |
| `Storage.BrowserStorage.GetCart` | lib/storage.ts:21-24 | Returns the cart view of the current entries |
| `Storage.BrowserStorage.SaveCart` | lib/storage.ts:26-29 | In a browser, only the cart key is rewritten, with the serialized cart; outside, nothing changes |
| `Storage.BrowserStorage.ClearCart` | lib/storage.ts:31-34 | In a browser, only the cart key is removed; outside, nothing changes |
| `Storage.BrowserStorage.GetOrders` | lib/storage.ts:37-40 | Returns the order-list view of the current entries |
| `Storage.BrowserStorage.SaveOrder` | lib/storage.ts:42-47 | In a browser, the order key is rewritten with the new order in front of the list as it read before; outside, nothing changes |
| `Storage.BrowserStorage.GetUser` | lib/storage.ts:50-53 | Returns the user view of the current entries |
| `Storage.BrowserStorage.SaveUser` | lib/storage.ts:55-58 | In a browser, only the user key is rewritten; outside, nothing changes |
| `Storage.BrowserStorage.ClearUser` | lib/storage.ts:60-63 | In a browser, only the user key is removed; outside, nothing changes |
| `Storage.CorruptReadsAsDefault` | lib/storage.ts:11-16 | A corrupt value under any of the three keys reads as `[]`, `[]` or `null`, with no error |
| `Storage.SaveCartRoundTrip` | lib/storage.ts:21-29 | `saveCart(c)` followed by `getCart()` returns `c` |
| `Storage.SaveUserRoundTrip` | lib/storage.ts:50-58 | `saveUser(u)` followed by `getUser()` returns `u` |
| `Storage.ClearedReadsAsDefault` | lib/storage.ts:31-63 | After `clearCart` the cart reads as `[]`; after `clearUser` the user reads as `null` |
| `Storage.SaveOrderPrepends` | lib/storage.ts:42-47 | After `saveOrder(o)` the order list reads as `[o]` followed by the previous list, newest first |
| `Storage.ViewsAreSeparate` | lib/storage.ts:19-64 | Writing or removing one of the three keys leaves the other two views unchanged |
| `AuthProvider.AuthState.constructor` | components/providers/auth-provider.tsx:17-18 | Before hydration, nobody is logged in and `hydrated` is false |
| `AuthProvider.AuthState.Hydrate` | components/providers/auth-provider.tsx:20-23 | `user` becomes the stored user, or `null`, and `hydrated` becomes true |
| `AuthProvider.AuthState.Login` | components/providers/auth-provider.tsx:25-28 | The user is stored and becomes the current user; `hydrated` is unchanged; in a browser the stored user then reads back as that user |
| `AuthProvider.AuthState.Logout` | components/providers/auth-provider.tsx:30-33 | The stored user is removed and the current user becomes `null`; `hydrated` is unchanged; the stored user reads as `null` |
| `AuthProvider.UseAuth` | components/providers/auth-provider.tsx:48-53 | Succeeds exactly inside a provider; outside, it reports the misuse with the source's message |
| `CartProvider.IncrementQuantity` | components/providers/cart-provider.tsx:69-73 | Same length and products; the matching lines' quantities go up by one and the others stay |
| `CartProvider.AddItem` | components/providers/cart-provider.tsx:66-76 | The list grows by one line exactly when the id is new, and that line is the product with quantity 1; the previous lines keep their products in place |
| `CartProvider.SetQuantity` | components/providers/cart-provider.tsx:89-93 | Same length, and every line keeps its id |
| `CartProvider.RemoveId` | components/providers/cart-provider.tsx:96 | Exactly the lines carrying the id are dropped: the length falls by their number |
| `CartProvider.ItemsCount` | components/providers/cart-provider.tsx:109 | The empty cart counts 0 |
| `CartProvider.Subtotal` | components/providers/cart-provider.tsx:110-113 | The empty cart's subtotal is 0.0 |
| `CartProvider.CartState.constructor` | components/providers/cart-provider.tsx:28-30 | The container starts empty and not hydrated |
| `CartProvider.CartState.Hydrate` | components/providers/cart-provider.tsx:32-35 | The list becomes the stored cart view and `hydrated` becomes true |
| `CartProvider.CartState.PersistOnChange` | components/providers/cart-provider.tsx:37-40 | Once hydrated, the whole list is written back and then reads back as the list; before hydration the store is untouched |
| `CartProvider.CartState.ClearOnLogout` | components/providers/cart-provider.tsx:42-49 | After auth hydration with nobody logged in, the list is empty and the stored cart is removed; otherwise nothing changes |
| `CartProvider.CartState.AddToCart` | components/providers/cart-provider.tsx:55-87 | With no user the list is unchanged; otherwise it becomes the merged-or-appended list |
| `CartProvider.CartState.UpdateQuantity` | components/providers/cart-provider.tsx:89-93 | The list becomes the one with the matching lines' quantity replaced |
| `CartProvider.CartState.RemoveItem` | components/providers/cart-provider.tsx:95-101 | The list becomes the one without the matching lines |
| `CartProvider.CartState.ClearCart` | components/providers/cart-provider.tsx:103-106 | The list is empty, only the stored cart key is removed, and the stored cart reads as `[]` |
| `CartProvider.UseCart` | components/providers/cart-provider.tsx:134-140 | Succeeds exactly inside a provider; outside, it reports the misuse with the source's message |
| `CartProvider.AddExisting` | components/providers/cart-provider.tsx:66-74 | For an id already present, that line's quantity goes up by one; length, order and the other lines are unchanged |
| `CartProvider.AddNew` | components/providers/cart-provider.tsx:75 | For a new id, the product with quantity 1 is appended after the unchanged previous lines |
| `CartProvider.AddPreservesUnique` | components/providers/cart-provider.tsx:66-76 | Adding keeps at most one line per product id |
| `CartProvider.AddMakesPresent` | components/providers/cart-provider.tsx:66-76 | After adding, a line with the product's id is present |
| `CartProvider.SetQuantityEffect` | components/providers/cart-provider.tsx:89-93 | Matching lines get exactly the given quantity, with no lower bound; length, products and the other lines are unchanged |
| `CartProvider.SetQuantityPreservesUnique` | components/providers/cart-provider.tsx:89-93 | Updating a quantity keeps at most one line per product id |
| `CartProvider.RemoveIdMembers` | components/providers/cart-provider.tsx:96 | After removal, the list holds exactly the previous lines with another id |
| `CartProvider.RemoveIdLeavesNone` | components/providers/cart-provider.tsx:96 | After removal, no line carries the removed id |
| `CartProvider.RemoveIdIsSubsequence` | components/providers/cart-provider.tsx:96 | The remaining lines keep their relative order |
| `CartProvider.RemoveAbsentIsNoOp` | components/providers/cart-provider.tsx:96 | Removing an absent id leaves the list unchanged |
| `CartProvider.RemovePreservesUnique` | components/providers/cart-provider.tsx:96 | Removing keeps at most one line per product id |
| `CartProvider.ItemsCountAppend` | components/providers/cart-provider.tsx:109 | The count of a concatenation is the sum of the counts |
| `CartProvider.SubtotalAppend` | components/providers/cart-provider.tsx:110-113 | The subtotal of a concatenation is the sum of the subtotals |
| `CartProvider.FoldsAtFront` | components/providers/cart-provider.tsx:108-113 | Each left fold equals the first line's contribution plus the fold of the rest |
| `CartProvider.RemoveIdCount` | components/providers/cart-provider.tsx:95-109 | After removal, `itemsCount` is lower by exactly the removed lines' quantities |
| `CartProvider.RemoveIdSubtotal` | components/providers/cart-provider.tsx:95-113 | After removal, `subtotal` is lower by exactly the removed lines' price × quantity |
| `CartProvider.IncrementCount` | components/providers/cart-provider.tsx:66-109 | Incrementing raises `itemsCount` by one per matching line |
| `CartProvider.IncrementedLineTotal` | components/providers/cart-provider.tsx:111 | One more unit adds one price to the line's price × quantity |
| `CartProvider.IncrementSubtotal` | components/providers/cart-provider.tsx:66-113 | Incrementing raises `subtotal` by the matching lines' prices |
| `CartProvider.SetQuantityCount` | components/providers/cart-provider.tsx:89-109 | After an update, `itemsCount` has the matching lines' quantities replaced by the new quantity |
| `CartProvider.UniqueLinesWith` | components/providers/cart-provider.tsx:66-76 | With unique ids, an id sits on exactly one line if it is present and on none otherwise |
| `CartProvider.AddItemCount` | components/providers/cart-provider.tsx:55-109 | On a cart with unique ids, adding a product raises `itemsCount` by exactly one |
| `CartProvider.AddNewSubtotal` | components/providers/cart-provider.tsx:75-113 | Adding a new product raises `subtotal` by its price |
| `CartProvider.AddSequenceExample` | components/providers/cart-provider.tsx:66-76 | Adding P1, P2, P1 gives two lines, P1 with quantity 2 and then P2 with quantity 1, and a count of 3 |
| `Checkout.Shipping` | components/checkout/checkout-content.tsx:24 | Shipping is free exactly when the subtotal is above 100, and 9.99 otherwise, so it is 9.99 at exactly 100 |
| `Checkout.Tax` | components/checkout/checkout-content.tsx:25 | Tax is one tenth of the subtotal |
| `Checkout.Total` | components/checkout/checkout-content.tsx:26 | The total minus tax and shipping is the subtotal: 1.1 × subtotal above 100, and 1.1 × subtotal + 9.99 otherwise |
| `Checkout.PricingExamples` | components/checkout/checkout-content.tsx:24-26 | A subtotal of 150 gives 0, 15 and 165; a subtotal of 50 gives 9.99, 5 and 64.99; a subtotal of 100 still pays shipping |
| `Checkout.TotalDropsAtThreshold` | components/checkout/checkout-content.tsx:24-26 | The total at a subtotal of 100 is higher than at 100.01 |
| `Checkout.RedirectTarget` | components/checkout/checkout-content.tsx:28-43 | Before hydration, no redirect; after it, a missing user goes to the auth page and a user with an empty cart goes to the product list; nothing else redirects |
| `Checkout.CheckoutState.constructor` | components/checkout/checkout-content.tsx:22 | Not processing, nothing scheduled |
| `Checkout.CheckoutState.HandleCheckout` | components/checkout/checkout-content.tsx:45-53 | Only callable while not processing, as the disabled button (line 156) ensures. With no user or an empty cart, the flag stays down and nothing is scheduled. Otherwise the flag goes up and exactly one completion, for the current items and total, is scheduled |
| `Checkout.CheckoutState.CompletePayment` | components/checkout/checkout-content.tsx:53-72 | The order carries the captured items and total and status `completed`, and it heads the stored order list; the cart is empty in memory and in the store; the flag is down and nothing is pending |
| `Checkout.CheckoutSession` | components/checkout/checkout-content.tsx:45-73 | In a fresh browser store, logging in, adding one product and checking out stores exactly one order, with that product at quantity 1 and the computed total, and leaves the cart empty |
| `Calendar.Weekday` | components/ui/calendar.tsx:63 | The weekday is in 0..6 and shifts one day per day from the Thursday epoch |
| `Calendar.StartOfWeek` | components/ui/calendar.tsx:63 | `startOfWeek` is the Sunday on or before the day |
| `Calendar.EndOfWeek` | components/ui/calendar.tsx:64 | `endOfWeek` is the Saturday on or after the day |
| `Calendar.DaysInMonth` | components/ui/calendar.tsx:64 | A month has 28 to 31 days, and February has 29 exactly in leap years |
| `Calendar.DaysBeforeMonth` | components/ui/calendar.tsx:63 | January starts the year, and the days before month m lie between 30(m-1)-2 and 31(m-1) |
| `Calendar.StartOfMonth` | components/ui/calendar.tsx:63 | `startOfMonth` of January 1970 is day 0, and a later month of a year starts its days-before-month after that year's January |
| `Calendar.EndOfMonth` | components/ui/calendar.tsx:64 | `endOfMonth` is the last of the month's days counted from `startOfMonth` |
| `Calendar.LeapYearStep` | components/ui/calendar.tsx:63-64 | The leap-year count goes up by one exactly across a Gregorian leap year |
| `Calendar.NextMonthFollows` | components/ui/calendar.tsx:63-64 | The next month starts the day after this one ends, across December too |
| `Calendar.KnownWeekdays` | components/ui/calendar.tsx:63 | 1970-01-01 is a Thursday, 2024-01-01 a Monday and 2000-03-01 a Wednesday |
| `Calendar.EachDay` | components/ui/calendar.tsx:65 | `eachDayOfInterval` lists every day from start to end in order |
| `Calendar.GridSpan` | components/ui/calendar.tsx:62-73 | The grid's interval is a whole number of weeks, between 28 and 42 days |
| `Calendar.WeekSpan` | components/ui/calendar.tsx:63-64 | From the Sunday on or before one day to the Saturday on or after a later one is a whole number of weeks, less than two weeks longer than the days between |
| `Calendar.BuildCalendarMatrix` | components/ui/calendar.tsx:62-73 | The result is non-empty rows of seven days, from the Sunday on or before the 1st to the Saturday on or after the last day |
| `Calendar.GridWeekdays` | components/ui/calendar.tsx:62-73 | The first cell is a Sunday and column k always holds weekday k |
| `Calendar.GridConsecutive` | components/ui/calendar.tsx:62-73 | Read row by row, the cells are consecutive days |
| `Calendar.GridHoldsMonthOnce` | components/ui/calendar.tsx:62-73 | Every day of the month has a cell, no day appears twice, and there are 4 to 6 rows |
| `Calendar.IsWithinRange` | components/ui/calendar.tsx:75-80 | False when either end is missing; otherwise true exactly when min ≤ date ≤ max of the two ends |
| `Calendar.WithinRangeSymmetric` | components/ui/calendar.tsx:75-80 | Swapping the two ends does not change the answer |
| `Calendar.RemoveDay` | components/ui/calendar.tsx:86 | The filtered list holds no entry on the day and is no longer than the original |
| `Calendar.RemoveDayIsSubsequence` | components/ui/calendar.tsx:86 | The kept dates stay in their order |
| `Calendar.RemoveDayCounts` | components/ui/calendar.tsx:86 | The day occurs zero times, and every other date occurs as often as before, repeats included |
| `Calendar.RemoveDayMembers` | components/ui/calendar.tsx:86 | The filter keeps exactly the entries on other days |
| `Calendar.RemoveAbsentDay` | components/ui/calendar.tsx:86 | Filtering out a day that is not listed changes nothing |
| `Calendar.RemoveDayAppend` | components/ui/calendar.tsx:86 | The filter distributes over concatenation |
| `Calendar.ToggleMultiple` | components/ui/calendar.tsx:82-89 | No list gives `[d]`; a list without d gets d appended; a list with d loses every entry on d and keeps all others in order, each as often as before |
| `Calendar.ToggleTwice` | components/ui/calendar.tsx:82-89 | Toggling a day absent from the list twice returns the original list |
| `Calendar.UpdateRange` | components/ui/calendar.tsx:91-105 | With no start, or with both ends set, the result is `{from: d}`; with only a start, it is a complete range from min(from, d) to max(from, d) |
| `Calendar.GetDayState` | components/ui/calendar.tsx:107-144 | In range mode with a range, a day is selected exactly when it is an end, and an end is never "in range". In range mode with a lone date, no selection or a list, nothing is flagged. Single and multiple mode follow their selection rules and flag no range |
| `Calendar.HandleDaySelection` | components/ui/calendar.tsx:164-182 | A disabled day calls nothing. Single mode gives `undefined` on the selected day and the day otherwise. Multiple mode toggles the list, or starts one. Range mode updates the current range, or starts `{from: d}` when the selection is not a range |
| `Calendar.SingleClickTwice` | components/ui/calendar.tsx:180 | In single mode, two clicks on the same day restore the selection |
| `Products.ToLower` | components/products/products-content.tsx:46 | Lower-casing keeps the length and maps each character |
| `Products.ContainsEmpty` | components/products/products-content.tsx:44-46 | Every string contains the empty string |
| `Products.FilterSearchEmptyTerm` | components/products/products-content.tsx:44-48 | Skipping the search for an empty term is harmless: filtering by the empty term would keep every product |
| `Products.FilterCategory` | components/products/products-content.tsx:40-42 | Every kept product has the category, and nothing is added |
| `Products.FilterSearch` | components/products/products-content.tsx:44-48 | Every kept product's title contains the term, ignoring case, and nothing is added |
| `Products.FilterCategoryFacts` | components/products/products-content.tsx:40-42 | The category filter keeps exactly the products of that category, as an order-preserving subsequence |
| `Products.FilterSearchFacts` | components/products/products-content.tsx:44-48 | The search filter keeps exactly the products whose title contains the term, ignoring case, as an order-preserving subsequence |
| `Products.SortKeyFor` | components/products/products-content.tsx:50-56 | Each of the three sort options selects its key; any other value selects no sort |
| `Products.Sort` | components/products/products-content.tsx:50-56 | The sort is a permutation: it neither adds nor drops elements |
| `Products.InsertMultiset` | components/products/products-content.tsx:50-56 | Inserting adds exactly the one element |
| `Products.SortedTail` | components/products/products-content.tsx:50-56 | A sorted list's tail is sorted and no key in it is below the head's |
| `Products.SortedCons` | components/products/products-content.tsx:50-56 | Putting a minimum element in front of a sorted list keeps it sorted |
| `Products.InsertSorted` | components/products/products-content.tsx:50-56 | Inserting into a sorted list keeps it sorted |
| `Products.SortFacts` | components/products/products-content.tsx:50-56 | The sort orders by the key |
| `Products.WithKeyAppend` | components/products/products-content.tsx:50-56 | The elements with a given key, taken from a concatenation, are those of each part in turn |
| `Products.WithKeyAbove` | components/products/products-content.tsx:50-56 | A list whose keys are all above v has no element with key v |
| `Products.InsertStableFront` | components/products/products-content.tsx:50-56 | Inserting in front of larger keys puts the new element after every element with an equal key |
| `Products.InsertStableBehind` | components/products/products-content.tsx:50-56 | Inserting behind the head keeps the head's equal-key contribution in front |
| `Products.InsertStable` | components/products/products-content.tsx:50-56 | Inserting into a sorted list places the new element after every element with an equal key |
| `Products.SortStable` | components/products/products-content.tsx:50-56 | The sort is stable: elements with equal keys keep their relative order |
| `Products.SortedOrders` | components/products/products-content.tsx:50-56 | Sorted by "price-low" means non-decreasing price; by "price-high", non-increasing price; by "rating", non-increasing rating |
| `Products.SortOutcome` | components/products/products-content.tsx:50-56 | The sort keeps the same elements and the same multiset, orders by the key, and is stable for every key value |
| `Products.Narrowed` | components/products/products-content.tsx:38-48 | The filters only remove, and with "all" and no term they keep the list as is |
| `Products.NarrowedFacts` | components/products/products-content.tsx:38-48 | After both filters, a product remains exactly when it passes every active filter, and the result is an order-preserving subsequence |
| `Products.FilterProducts` | components/products/products-content.tsx:37-59 | The listing holds exactly the products passing the active filters, as a permutation of the filtered list. Under the default sort it keeps their order. Each sort option gives its ordering and is stable. With "all", no term and the default sort, it equals the input |
| `Products.Capitalize` | components/products/products-content.tsx:64 | Same length; the first character is upper-cased and the rest is unchanged |
| `Products.CapitalizeIdempotent` | components/products/products-content.tsx:64 | Capitalizing twice is the same as capitalizing once |
| `Products.FormattedCategories` | components/products/products-content.tsx:61-67 | One option per category, in order, with the category as value and its capitalized form as label |
| `Products.LabelsMatchValues` | components/products/products-content.tsx:61-67 | Each label equals its value once both are lower-cased |

## Left out

- `lib/api.ts` (network fetches and cache hints) and the pure-UI components and pages are not part of this model.
- Toasts, router navigation, the 2-second payment delay, the cart drawer's `isOpen`/`openCart`/`toggleCart` state and the `openDrawer` option of `addToCart` are not modelled. The delay is only a queue of pending completions.
- `Date.now()`, `new Date().toISOString()` and the `ORD-…` id are parameters of `CompletePayment`, because clocks are not modelled.
- `Storage.SafeParse`: the source's `as T` is an unchecked cast. A parsed document of the wrong shape (for example `null` or `{}` under the cart key) is returned as is. The model's cast falls back to the default instead, because the model's JSON domain carries only the shapes the application writes. What this hides: with `null` or `{}` under the orders key, `orders.unshift` throws inside the payment callback (lib/storage.ts:44-45, called at components/checkout/checkout-content.tsx:62). The cart is then never cleared and `isProcessing` stays true. In the model, `CompletePayment` always succeeds.
- Storage failures are not modelled: the model's store never fails. `isBrowser` checks only for `window`, so a blocked `localStorage` makes `getItem` throw outside `safeParse`'s `try`. A full store makes `setItem` throw `QuotaExceededError` out of `saveCart`, `saveOrder` and `saveUser`.
- The `console.warn` on a parse failure is not modelled, as it is I/O.
- `Products.ToLower`, `Products.Capitalize`: case mapping is ASCII-only. The model has no Unicode case tables.
- Floating point is not modelled: money is an exact `real`, and IEEE rounding and `toFixed` display are left out.
- Dates carry no time of day and no time zone, and date-fns/`Intl` formatting is left out.
- The calendar's `normalizeMonth`, its `currentMonth` state and the previous/next month buttons are left out. The model takes the displayed month as an input.
- The listing page's first effect, which copies the `category` search parameter into the selection, is left out: the category is an input of `FilterProducts`.
- The `User` record is opaque (`id`, `name`, `email`). `types/index.ts` is not part of this model.
- React effect scheduling and render order are not modelled: each effect is a method that the caller invokes. In the source, the save-on-change effect also runs after `clearCart` and writes `[]` under the cart key. That reads back as the same empty cart that `CartView` reports for the removed key.
- `CartProvider.CartState.UpdateQuantity` states no lower bound on quantities, as in the source. The drawer's `Math.max(1, q - 1)` lives in `components/CartDrawer.tsx`, which is not part of this model.
