# Storefront rules, modelled in Dafny

This project models the rules of a small storefront: a React client (product listing, product cards,
cart, checkout, payment, registration and login) and a Django backend (product, order and home-page
models, their serializers, the REST views and the administration site). It covers the rules that run
between the I/O calls:

- **Client state.**
  - The cart and favourites id sets as `localStorage` stores them.
  - The home page's carousel paging and the order of its blocks.
  - Checkout payload construction and the total.
  - Payment-page order id parsing, total selection, button labels and the `pay` sequence.
  - Registration and login validation, and the stored customer record.
  - The API helpers: listing query construction, price normalisation, CSRF cookie lookup, the `postJson` error rule.
- **Server rules.**
  - Order numbering in `Order.save`, line totals and `__str__`.
  - The serializers' availability and low-stock flags, the image URL, home-section products, carousel slides and carousels.
  - Order creation.
  - The product listing's filters and orderings, the registration and login checks, and the order list filter.
  - The administration actions: stock messages, cloning, bulk update, total recalculation, status actions and the line-total display.

Money is held as integer cents.

- On the client a number is `Num` (`Cents(c)` or `NaN`), and `Number(...)`, `toFixed(2)` and `String(x)` are modelled on amounts with at most two decimals.
- On the server a posted number is a `Decimal(units, scale)`, compared exactly against prices.

The ORM's `filter`, `order_by` and slicing are `Sorting.Keep`, a stable `Sorting.SortBy` on a pair key, and `Sorting.Take`.

State the source changes in place is held in classes:

- the `localStorage` store;
- the page components' state;
- the carousel view;
- the site setting and order rows.

Their methods carry `modifies` clauses and state the new state in full.

The `Agreement` module connects the two sides:

- The client's fallback flags agree with the server's flags.
- A serialized price reaches the client unchanged.
- The server stores the checkout page's total for the order it creates.
- The order id survives the trip to the payment page.
- A price bound typed on the client is the bound the server applies.

## Model

| member | source | states |
|---|---|---|
| IdSets.Dedup | frontend/src/pages/Cart.tsx:11 | `Array.from(new Set(s))`: duplicate-free, the same members as `s`, in first-occurrence order |
| IdSets.Add | frontend/src/components/ProductCard.tsx:20-22 | adding an absent id appends it; a present id leaves the set unchanged; membership is old members plus the id |
| IdSets.Without | frontend/src/pages/Cart.tsx:38 | removing keeps every other member in order and drops exactly the id |
| IdSets.Toggled | frontend/src/pages/Product.tsx:58 | the toggle removes a present id and appends an absent one; membership of every other id is unchanged |
| IdSets.AddDistinct | frontend/src/components/ProductCard.tsx:21-23 | adding keeps a set duplicate-free |
| IdSets.WithoutDistinct | frontend/src/components/ProductCard.tsx:29-31 | removing keeps a set duplicate-free |
| IdSets.DedupOfDistinct | frontend/src/pages/Cart.tsx:18 | building a set from a duplicate-free array gives the array back |
| IdSets.DedupIdempotent | frontend/src/pages/Cart.tsx:11-18 | re-reading a written set gives the same ids in the same order |
| IdSets.DedupPrefix | frontend/src/pages/Cart.tsx:11 | the set of a prefix is a prefix of the set of the whole |
| IdSets.DistinctCardinality | frontend/src/components/FloatingCart.tsx:11 | a duplicate-free sequence has as many elements as distinct members |
| IdSets.DedupSize | frontend/src/components/FloatingCart.tsx:11 | `new Set(s).size` is the number of distinct members of `s` |
| IdSets.ToggledDistinct | frontend/src/pages/Product.tsx:58-59 | toggling keeps a set duplicate-free |
| Storage.ParseIds | frontend/src/components/ProductCard.tsx:8-11 | a missing key is the empty set, unparsable text is a failure, a stored array is its deduplicated ids |
| Storage.ReadIds | frontend/src/components/ProductCard.tsx:6-15 | any failure reads as the empty set; otherwise the stored ids without repetition |
| Storage.ReadAfterWrite | frontend/src/components/ProductCard.tsx:23 | writing a duplicate-free array and reading it back gives the same ids in the same order |
| Storage.ReadOtherKey | frontend/src/components/ProductCard.tsx:23 | writing one key leaves what every other key reads unchanged |
| Storage.ReadCustomer | frontend/src/pages/Checkout.tsx:33-38 | the `customer` key parsed: the stored record itself, or nothing when missing or unreadable |
| Storage.Store.constructor | frontend/src/components/ProductCard.tsx:8 | the store holds exactly the given entries |
| Storage.Store.SetIds | frontend/src/components/ProductCard.tsx:23 | the key holds the array and every other key and the customer slot are unchanged |
| Storage.Store.SetCustomer | frontend/src/pages/Register.tsx:55 | the customer slot holds the record and every id key is unchanged |
| ProductCard.LocalSet.constructor | frontend/src/components/ProductCard.tsx:16 | the state starts as the stored set, empty for a missing key or unparsable text |
| ProductCard.LocalSet.Has | frontend/src/components/ProductCard.tsx:18 | `has(id)` is membership in the state |
| ProductCard.LocalSet.Add | frontend/src/components/ProductCard.tsx:19-26 | an absent id joins the set and the new array is stored; a present id changes neither state nor storage |
| ProductCard.LocalSet.Remove | frontend/src/components/ProductCard.tsx:27-34 | a present id leaves the set and the new array is stored; an absent id is a no-op |
| ProductCard.LocalSet.Toggle | frontend/src/components/ProductCard.tsx:102 | the set becomes `Toggled(old set, id)`: the id alone flips membership; the key is stored with the new set and every other key is unchanged |
| ProductCard.ThresholdOrZero | frontend/src/components/ProductCard.tsx:47 | `Math.max(0, threshold \|\| 0)`: the positive threshold, else 0 |
| ProductCard.IsAvailable | frontend/src/components/ProductCard.tsx:46 | the server's flag when sent, else in stock and the quantity unknown or positive |
| ProductCard.IsLowStock | frontend/src/components/ProductCard.tsx:47 | the server's flag when sent, else a known positive quantity at or below the threshold |
| ProductCard.Badges | frontend/src/components/ProductCard.tsx:82-86 | at most one badge; "Out of stock" iff unavailable; "Low stock" only when available and low; "In stock" only when available, not low and the quantity known; none when the template hides badges |
| ProductCard.ClickAddToCart | frontend/src/components/ProductCard.tsx:90-93 | the click adds the product exactly when the button is enabled, that is, not in the cart and available |
| ProductCard.CardImageSrc | frontend/src/components/ProductCard.tsx:41 | the image URL when it has a non-blank character, else the placeholder |
| CartPage.WriteCartIds | frontend/src/pages/Cart.tsx:17-19 | the `cart` key always receives the ids without repetition |
| CartPage.FetchAll | frontend/src/pages/Cart.tsx:26-33 | every product, in id order, when every request succeeds; nothing as soon as one fails |
| CartPage.Total | frontend/src/pages/Cart.tsx:35 | non-negative when every price counts as non-negative, and 0 when no price is a number |
| CartPage.TotalAppend | frontend/src/pages/Cart.tsx:35 | the total of a list is the sum of the totals of its parts |
| CartPage.TotalSingle | frontend/src/pages/Cart.tsx:35 | a non-numeric price adds 0, every other price adds itself |
| CartPage.CartView.constructor | frontend/src/pages/Cart.tsx:22-23 | the ids are the stored cart read without repetition; no items yet |
| CartPage.CartView.LoadItems | frontend/src/pages/Cart.tsx:26-33 | the items become all products or, when any request fails, none |
| CartPage.CartView.Remove | frontend/src/pages/Cart.tsx:37-41 | every other id stays in order, and storage holds exactly the new ids |
| CartPage.CartView.Clear | frontend/src/pages/Cart.tsx:43-46 | both the ids and the stored cart become empty |
| CheckoutPage.Lines | frontend/src/pages/Checkout.tsx:73 | one line per item, in item order, quantity 1 and the item's price |
| CheckoutPage.BuildPayload | frontend/src/pages/Checkout.tsx:66-74 | the name falls back to the email; empty optional fields are left out; the lines are `Lines(items)` |
| CheckoutPage.Shipping | frontend/src/pages/Checkout.tsx:41 | shipping is 0 whatever the cart holds |
| CheckoutPage.CheckoutTotal | frontend/src/pages/Checkout.tsx:40-42 | the total equals the cart subtotal |
| CheckoutPage.Prefill | frontend/src/pages/Checkout.tsx:53-58 | a stored customer fills email and name (`\|\| ''`), and nothing else changes; none leaves the form unchanged |
| CheckoutPage.CheckoutView.constructor | frontend/src/pages/Checkout.tsx:18-22 | the ids are the stored cart without repetition; empty form, no items, no error |
| CheckoutPage.CheckoutView.LoadItems | frontend/src/pages/Checkout.tsx:24-31 | all products or, when any request fails, none |
| CheckoutPage.CheckoutView.ApplyPrefill | frontend/src/pages/Checkout.tsx:53-58 | the form becomes `Prefill(form, customer)` |
| CheckoutPage.CheckoutView.PlaceOrder | frontend/src/pages/Checkout.tsx:60-81 | with no items nothing is sent and nothing changes; otherwise the payload is sent, success moves to the payment page of the new order, failure sets the message or the fallback; `submitting` ends false |
| CheckoutPage.OrderOutcome | frontend/src/api.ts:148-168 | a malformed CSRF cookie fails before sending; otherwise the response decides, with its detail or "Failed to create order" |
| PaymentPage.ParseOrderParam | frontend/src/pages/Payment.tsx:35-37 | an id exactly when the value is a non-empty run of digits, and then their value |
| PaymentPage.OrderParamRoundTrip | frontend/src/pages/Payment.tsx:36-37 | the numeral of an id reads back as that id |
| PaymentPage.OrderParamRejects | frontend/src/pages/Payment.tsx:36 | a sign, a point, the empty string and a missing value are not ids |
| PaymentPage.PaymentTotal | frontend/src/pages/Payment.tsx:63-66 | the order's total once known, else the cart subtotal |
| PaymentPage.AmountText | frontend/src/pages/Payment.tsx:133 | `total.toFixed(2)`, which reads back as the total |
| PaymentPage.FindGateway | frontend/src/pages/Payment.tsx:133 | the first gateway with the selected code, none for no selection or no match |
| PaymentPage.PayLabel | frontend/src/pages/Payment.tsx:133 | the selected gateway's label, else the settings' label, else "Pay"; an empty label falls through |
| PaymentPage.PayButtonText | frontend/src/pages/Payment.tsx:133 | "Processing…" while paying, else the label, a space and the amount |
| PaymentPage.TotalCaption | frontend/src/pages/Payment.tsx:106 | "Calculating…" exactly while loading, then "Total $" and the amount |
| PaymentPage.SuccessMessage | frontend/src/pages/Payment.tsx:77 | the configured success message, else the default text |
| PaymentPage.LoginRedirect | frontend/src/pages/Payment.tsx:57-61 | a login page with the current path and query as `redirect` exactly when login is required and no customer is stored |
| PaymentPage.LoginRedirectRoundTrip | frontend/src/pages/Payment.tsx:59 | decoding the `redirect` value gives back exactly the page that was left |
| PaymentPage.UpdateOutcome | frontend/src/api.ts:192-204 | a malformed CSRF cookie fails before sending; otherwise the response decides |
| PaymentPage.PaymentView.constructor | frontend/src/pages/Payment.tsx:18-27 | the stored cart ids; no order, no total, loading, nothing selected |
| PaymentPage.PaymentView.LoadSettings | frontend/src/pages/Payment.tsx:32 | the settings, or none when the request fails; every other field, `loading` included, unchanged |
| PaymentPage.PaymentView.LoadGateways | frontend/src/pages/Payment.tsx:33 | on success the list and the first gateway's code selected when there is one; on failure an empty list |
| PaymentPage.PaymentView.LoadOrder | frontend/src/pages/Payment.tsx:34-50 | a valid `order` value sets the id and fetches its total (none on failure); otherwise the cart's products, all or nothing; loading ends |
| PaymentPage.PaymentView.LoadCustomer | frontend/src/pages/Payment.tsx:53-55 | a stored readable record is taken; otherwise nothing changes |
| PaymentPage.PaymentView.SelectGateway | frontend/src/pages/Payment.tsx:125 | the selected code becomes the gateway's |
| PaymentPage.PaymentView.Pay | frontend/src/pages/Payment.tsx:68-83 | sent only while the button is enabled (not paying, not loading); the order, when there is one, is marked paid first; if that fails the cart is unchanged; otherwise the cart becomes empty and the page goes home with the success message; `submitting` ends false |
| ProductPage.ProductView.constructor | frontend/src/pages/Product.tsx:8-14 | no product, loading, flags false, count 0 |
| ProductPage.ScreenOf | frontend/src/pages/Product.tsx:87-89 | "Loading..." exactly while loading; then the error exactly when its message is non-empty; then "Not found" exactly when there is no product; else the product |
| ProductPage.ProductView.Load | frontend/src/pages/Product.tsx:16-23 | the product, or the request's error message; either way loading ends |
| ProductPage.ProductView.InitFlags | frontend/src/pages/Product.tsx:26-39 | the favourite flag from `favorites`, the cart flag and count from `cart`; an unparsable key leaves its flags unchanged; a missing key reads as empty |
| ProductPage.ProductView.PollTick | frontend/src/pages/Product.tsx:41-51 | the count becomes the cart set's size; the cart flag follows membership when a product is shown |
| ProductPage.ProductView.ToggleFav | frontend/src/pages/Product.tsx:53-63 | the product's id flips in the stored favourites, every other id stays, and the count becomes the favourites set's size |
| ProductPage.ProductView.AddToCart | frontend/src/pages/Product.tsx:74-85 | an absent id joins the stored cart and the flag is set; a present id writes nothing |
| ProductPage.AddedCartReadsBack | frontend/src/pages/Product.tsx:78-82 | after adding, the cart holds the product and has no duplicates |
| FloatingCart.ReadCartCount | frontend/src/components/FloatingCart.tsx:6-15 | the number of distinct stored ids; 0 when missing or unparsable |
| FloatingCart.ReadCartCountDistinct | frontend/src/components/FloatingCart.tsx:11 | repeated ids are counted once |
| FloatingCart.HiddenWhenCartEmpty | frontend/src/components/FloatingCart.tsx:43 | the button is hidden exactly when the stored cart reads as empty, a missing or unparsable one included |
| FloatingCart.PlacedLeft | frontend/src/components/FloatingCart.tsx:45 | left exactly for "bl", right otherwise and without a configuration |
| FloatingCart.AriaLabel | frontend/src/components/FloatingCart.tsx:56 | "Open cart with n item" followed by "s" for more than one |
| FloatingCart.AriaLabelPlural | frontend/src/components/FloatingCart.tsx:56 | the plural ending appears exactly when the count exceeds 1 |
| FloatingCart.FloatingCartView.constructor | frontend/src/components/FloatingCart.tsx:18-20 | the count starts as the current reading; no configuration |
| FloatingCart.FloatingCartView.RouteChanged | frontend/src/components/FloatingCart.tsx:22-25 | the count becomes the current reading |
| FloatingCart.FloatingCartView.Poll | frontend/src/components/FloatingCart.tsx:29-34 | the count equals the new reading, the old value kept only when equal |
| FloatingCart.FloatingCartView.LoadConfig | frontend/src/components/FloatingCart.tsx:38-41 | the configuration, or none when the request fails |
| Home.ListingParams | frontend/src/pages/Home.tsx:22-29 | empty inputs are left out; typed bounds go through `Number`; the ordering is always sent |
| Home.ListingMinPrice | frontend/src/pages/Home.tsx:27 | a minimum typed with at most two decimals reaches the query as the same amount |
| Home.ListingOrdering | frontend/src/pages/Home.tsx:25-29 | the ordering is always in the query; the search text only when non-empty |
| Home.PageCount | frontend/src/pages/Home.tsx:97-98 | at least 1, and the smallest page count whose pages hold all slides |
| Home.JsRem | frontend/src/pages/Home.tsx:101 | JavaScript's `%`: the remainder has the sign of the dividend |
| Home.WrapPage | frontend/src/pages/Home.tsx:99-103 | always a valid page, and an index already in range is kept |
| Home.MulAwayFromZero | frontend/src/pages/Home.tsx:101 | a multiple of `p` is 0 or at least `p` away from 0 |
| Home.ModUnique | frontend/src/pages/Home.tsx:101 | a remainder in `[0, p)` is unique |
| Home.WrapPageIsMod | frontend/src/pages/Home.tsx:99-103 | for every index, negative ones included, `goTo` lands on the mathematical residue in `[0, pages)` |
| Home.WrapEnds | frontend/src/pages/Home.tsx:104-105 | next from the last page is page 0; prev from page 0 is the last page |
| Home.PerViewFor | frontend/src/pages/Home.tsx:50-61 | 1 for a single slider; otherwise 3 from width 1024, 2 from 640, else 1 |
| Home.AutoplayInterval | frontend/src/pages/Home.tsx:68 | at least 1000; 3000 for a missing or zero speed |
| Home.AutoplayOnlyWhenRendered | frontend/src/pages/Home.tsx:66-70 | the timer runs only for a carousel that is drawn and has at least two slides |
| Home.ActiveCountWindow | frontend/src/pages/Home.tsx:125-128 | the active slides are the overlap of the page's window with the slides, so at most `perView` |
| Home.ResizeCanLeaveNoneActive | frontend/src/pages/Home.tsx:125-128 | the page index is not clamped on resize: a view can be left with no active slide |
| Home.CarouselView.Pages | frontend/src/pages/Home.tsx:98 | the view's page count, at least 1 |
| Home.CarouselView.constructor | frontend/src/pages/Home.tsx:47-61 | page 0 and `perView` for the width |
| Home.CarouselView.GoTo | frontend/src/pages/Home.tsx:99-103 | the page becomes `i mod pages`, a valid page; `perView` unchanged |
| Home.CarouselView.Prev | frontend/src/pages/Home.tsx:104 | the previous page modulo the count; from page 0 the last page |
| Home.CarouselView.Next | frontend/src/pages/Home.tsx:105 | the next page modulo the count; from the last page page 0 |
| Home.CarouselView.Tick | frontend/src/pages/Home.tsx:71-75 | one autoplay step: the next page modulo the count |
| Home.CarouselView.Resize | frontend/src/pages/Home.tsx:55-60 | `perView` is recomputed for the width and the page index is kept |
| Home.BlockOrder | frontend/src/pages/Home.tsx:208 | a block's order, 9999 only when missing |
| Home.SectionBlocks | frontend/src/pages/Home.tsx:204 | one block per section, in order |
| Home.CarouselBlocks | frontend/src/pages/Home.tsx:205 | one block per carousel section, in order |
| Home.OrderedBlocks | frontend/src/pages/Home.tsx:203-208 | the rendered blocks are a permutation of the merged list |
| Home.OrderedBlocksSorted | frontend/src/pages/Home.tsx:208 | the blocks are in ascending order, a missing order counting as 9999 |
| Home.OrderedBlocksStable | frontend/src/pages/Home.tsx:203-208 | blocks of equal order keep their merge order: sections, carousels, main grid |
| Home.SectionRendered | frontend/src/pages/Home.tsx:204 | every section is rendered |
| Home.CarouselRendered | frontend/src/pages/Home.tsx:205 | every carousel section is rendered |
| Home.MainRenderedOnce | frontend/src/pages/Home.tsx:206 | the main grid appears exactly once and nothing is added |
| Home.OneMainBlock | frontend/src/pages/Home.tsx:203-206 | before sorting the main grid is the single main block of the merged list |
| Home.MainGridProducts | frontend/src/pages/Home.tsx:217-218 | the first `limit` products, all of them for a missing or zero limit |
| Home.Columns | frontend/src/pages/Home.tsx:216 | at least one column; the configured count when positive |
| AuthPages.AllPlainAppend | frontend/src/pages/Register.tsx:34 | the class `[^@\s]` is closed under concatenation |
| AuthPages.ValidEmailMatches | frontend/src/pages/Register.tsx:34 | an accepted address matches the pattern |
| AuthPages.MatchAtIsValidEmail | frontend/src/pages/Register.tsx:34 | an '@' at position i and a '.' at position j with plain non-empty runs before, between and after satisfy the check |
| AuthPages.MatchIsValidEmail | frontend/src/pages/Register.tsx:34 | a matching address is accepted |
| AuthPages.EmailCheckIsPattern | frontend/src/pages/Register.tsx:34 | the check accepts exactly the addresses the pattern matches |
| AuthPages.EmailAccepted | frontend/src/pages/Register.tsx:34 | a plain address "a@b.co" passes the check |
| AuthPages.EmailWithoutDotRefused | frontend/src/pages/Register.tsx:34 | the empty text and an address without a dot after the '@' are refused |
| AuthPages.EmailLeadingDotRefused | frontend/src/pages/Register.tsx:34 | a domain that starts with its dot is refused |
| AuthPages.EmailSecondAtRefused | frontend/src/pages/Register.tsx:34 | a second '@' is refused |
| AuthPages.RegisterError | frontend/src/pages/Register.tsx:33-45 | the first failing check's message: email, then password length at least 6, then the confirmation; none when all pass |
| AuthPages.LoginError | frontend/src/pages/Login.tsx:35-42 | an invalid email, then an empty password; there is no length rule |
| AuthPages.SplitName | frontend/src/pages/Register.tsx:48-49 | the first name is the text before the first space of the trimmed name, the last name the rest |
| AuthPages.SplitNameJoins | frontend/src/pages/Register.tsx:48-49 | with a space in the trimmed name, first name, a space and last name give it back; without one the first name is the whole trimmed name and the last name is empty |
| AuthPages.Redirect | frontend/src/pages/Register.tsx:13 | the `redirect` value, or "/" when missing or empty |
| AuthPages.MountRedirect | frontend/src/pages/Register.tsx:24-29 | any stored customer text sends the visitor on |
| AuthPages.CustomerFrom | frontend/src/pages/Login.tsx:47-48 | the profile's email and first name when present and non-empty, else what was typed |
| AuthPages.Profile | frontend/src/pages/Login.tsx:47 | the profile, or none when the request fails |
| AuthPages.RegisterView.constructor | frontend/src/pages/Register.tsx:13-22 | empty fields, no error, not loading |
| AuthPages.RegisterView.Submit | frontend/src/pages/Register.tsx:31-61 | a failed check reports its message and sends nothing; otherwise register, sign in, store the customer and move on; a failure shows its message or "Registration failed" |
| AuthPages.LoginView.constructor | frontend/src/pages/Login.tsx:13-20 | empty fields, no error, not loading |
| AuthPages.LoginView.Submit | frontend/src/pages/Login.tsx:32-56 | a failed check reports its message and sends nothing; otherwise sign in, store the customer and move on; a failure shows its message or "Login failed" |
| Api.OrElse | frontend/src/api.ts:111 | an absent or empty detail gives the fallback |
| Api.OrUndefined | frontend/src/pages/Checkout.tsx:67-71 | `x \|\| undefined` on a text field: an empty text is left out, any other is sent as typed |
| Api.NonEmptyText | frontend/src/api.ts:9-13 | an absent or empty text is dropped, any other is kept unchanged |
| Api.Checked | frontend/src/api.ts:15 | a non-ok response fails with the endpoint's fixed message; an ok one yields its body |
| Api.CheckedDetail | frontend/src/api.ts:164 | a non-ok response fails with its detail or the fallback |
| Api.NormalizeProduct | frontend/src/api.ts:24 | the price is `Number(price)` and every other field is unchanged |
| Api.NormalizeProducts | frontend/src/api.ts:17 | every product normalised, order and length kept |
| Api.NormalizeRenderedPrice | frontend/src/api.ts:17 | a price rendered with two decimals becomes the same amount |
| Api.FetchProducts | frontend/src/api.ts:14-17 | failure gives "Failed to fetch products"; success the normalised list |
| Api.FetchProduct | frontend/src/api.ts:20-25 | failure gives "Product not found"; success the normalised product |
| Api.NormalizeSection | frontend/src/api.ts:86-89 | a missing product list is empty, every price converted |
| Api.NormalizeSections | frontend/src/api.ts:86-89 | every section normalised |
| Api.FetchHome | frontend/src/api.ts:81-91 | failure gives "Failed to fetch home config"; missing sections become empty; every price converted |
| Api.NormalizeItems | frontend/src/api.ts:166 | every item's price converted, missing items empty |
| Api.NormalizeOrder | frontend/src/api.ts:165-166 | the total and every item's price converted |
| Api.NormalizeOrders | frontend/src/api.ts:185-189 | every order normalised |
| Api.CreateOrder | frontend/src/api.ts:163-167 | the normalised order, or the detail or "Failed to create order" |
| Api.GetOrder | frontend/src/api.ts:172-176 | the normalised order, or the detail or "Order not found" |
| Api.ListOrdersByEmail | frontend/src/api.ts:183-189 | the normalised orders, or the detail or "Failed to fetch orders" |
| Api.UpdateOrder | frontend/src/api.ts:199-203 | the normalised order, or the detail or "Failed to update order" |
| Api.ApiMe | frontend/src/api.ts:127-131 | the user, or "Unauthorized" |
| Api.FeeNumber | frontend/src/api.ts:225-226 | `Number(x \|\| 0)`: null and the empty string are 0 |
| Api.FetchPaymentSetting | frontend/src/api.ts:221-228 | the settings with both fees converted, or "Failed to load payment settings" |
| Api.FetchPaymentGateways | frontend/src/api.ts:241-245 | the gateways, or "Failed to load payment gateways" |
| Api.FetchCategoryTree | frontend/src/api.ts:29-33 | the tree, or "Failed to fetch categories" |
| Api.SetParam | frontend/src/api.ts:9-13 | the key reads the new value, every other key reads as before, the key set grows by the key |
| Api.DropKey | frontend/src/api.ts:9-13 | the key reads nothing, every other key as before |
| Api.BuildProductQuery | frontend/src/api.ts:8-13 | the query built by the five conditional `set` calls |
| Api.ProductQueryText | frontend/src/api.ts:9-13 | `q` and `ordering` are present exactly when non-empty |
| Api.ProductQueryCategory | frontend/src/api.ts:10 | `category_id` is present whenever given, 0 included |
| Api.ProductQueryPrices | frontend/src/api.ts:11-12 | the bounds are present whenever given, 0 included, as `String(x)` |
| Api.ProductQueryKeys | frontend/src/api.ts:8-13 | no key other than the five listing keys is added |
| Api.SetAllLookups | frontend/src/api.ts:8-13 | `set` calls on different keys: each key reads back its last value (or what it had), untouched keys keep theirs, and no new key appears |
| Api.QueryOfLookups | frontend/src/api.ts:8-13 | each of the five listing keys reads back its own value, and only listing keys occur |
| Api.FindMatch | frontend/src/api.ts:98 | the first position where the cookie pattern matches, none when there is no match |
| Api.UpTo | frontend/src/api.ts:98 | the longest prefix without ';' |
| Api.CsrfToken | frontend/src/api.ts:96-100 | no match gives no token; a match gives its value decoded, or a failure for a malformed escape |
| Api.CsrfTokenValue | frontend/src/api.ts:98 | the captured value at the first match |
| Api.TokenFirst | frontend/src/api.ts:98 | a cookie starting with the token pair yields that pair's value |
| Api.LongerNameDoesNotMatch | frontend/src/api.ts:98 | "xcsrftoken=abc" yields no token |
| Api.TokenAfterOtherPair | frontend/src/api.ts:98 | after another `name=value` pair, a following "; csrftoken=value" is found |
| Api.PostRequest | frontend/src/api.ts:102-109 | a JSON content type, the CSRF header exactly when a non-empty token exists, `{}` for a null body; a malformed token aborts |
| Api.PostResult | frontend/src/api.ts:110-112 | an unparsable body reads as `{}`; non-ok fails with the detail or "Request failed" |
| Money.OrZero | frontend/src/pages/Cart.tsx:35 | `Number(x) \|\| 0`: NaN counts as 0 |
| Money.ParseNumber | frontend/src/api.ts:24 | `Number(s)`: the empty text is 0, a run of digits is that many units, and a text starting with anything but a digit, a sign or a point is `NaN` |
| Money.Fixed2 | backend_django/shop/serializers.py:46 | a sign exactly for negative amounts, then digits, a point and exactly two digits |
| Money.JsString | frontend/src/api.ts:11-12 | "NaN" for `NaN`; a sign exactly for negative amounts; no point for a whole amount |
| Money.ParseDecimal | backend_django/shop/views.py:28-37 | the empty text is refused (unlike `Number`), and a run of digits is a whole decimal of that value |
| Money.ParseFixed2 | backend_django/shop/serializers.py:46 | a price rendered with two decimals reads back through `Number` as the same amount |
| Money.ParseJsString | frontend/src/api.ts:11-12 | `String(x)` of an amount reads back as the same amount |
| Money.BoundsAgainstExact | backend_django/shop/views.py:28-39 | against a decimal equal to `c` cents, `price__gte` and `price__lte` compare with `c` |
| Money.DecimalAgreesWithNumber | backend_django/shop/views.py:28-37 | a text the client reads as `c` cents is a decimal the server reads as exactly `c` cents |
| Text.Lower | backend_django/shop/views.py:40 | ASCII lower-casing: same length, each character lowered |
| Text.TrimStart | frontend/src/pages/Register.tsx:48 | a suffix of the text that starts with a non-blank character or is empty |
| Text.TrimEnd | frontend/src/pages/Register.tsx:48 | a prefix of the text that ends with a non-blank character or is empty |
| Text.ParseNatToString | frontend/src/pages/Payment.tsx:37 | the numeral of `n` reads back as `n` |
| Text.Pad6 | backend_django/shop/models.py:174 | `{n:06d}`: at least six digits, all digits |
| Text.ParsePad6 | backend_django/shop/models.py:174 | the padded numeral reads back as `n` |
| Text.Split | frontend/src/pages/Register.tsx:48 | `split(' ')`: at least one piece, the first without the separator, and the whole text when there is no separator |
| Text.JoinSplit | frontend/src/pages/Register.tsx:48-49 | joining the pieces of a split with the separator gives back the text |
| Uri.EncodeURIComponent | frontend/src/pages/Payment.tsx:59 | unreserved characters kept, every other one replaced by its escaped UTF-8 bytes |
| Uri.DecodeEncode | frontend/src/api.ts:99 | `decodeURIComponent(encodeURIComponent(s)) == s` for every string |
| Uri.DecodePlain | frontend/src/api.ts:99 | text without escapes decodes to itself |
| Uri.DecodeURIComponent | frontend/src/api.ts:99 | a text without `%` decodes to itself |
| Uri.Utf8RoundTrip | frontend/src/api.ts:99 | decoding the UTF-8 bytes of a character gives the character |
| Sorting.SortBy | backend_django/shop/views.py:40-48 | `order_by`: a permutation of the input |
| Sorting.SortBySorted | backend_django/shop/views.py:40-48 | the result is in key order |
| Sorting.SortByStable | frontend/src/pages/Home.tsx:208 | elements of equal key keep their relative order |
| Sorting.SortByMembers | backend_django/shop/views.py:40-48 | sorting neither adds nor drops elements |
| Sorting.Keep | backend_django/shop/views.py:19-39 | `filter` never lengthens the sequence |
| Sorting.KeepMembers | backend_django/shop/views.py:19-39 | `filter` keeps exactly the elements that satisfy it |
| Sorting.KeepSorted | backend_django/shop/views.py:19-39 | filtering keeps the order of what remains |
| Sorting.KeepKeep | backend_django/shop/views.py:19-39 | two filters in a row keep what their conjunction keeps |
| Sorting.Take | backend_django/shop/serializers.py:111 | `qs[:n]`: the first `n` elements, or all when fewer |
| Sorting.TakeSortedRanksFirst | backend_django/shop/serializers.py:111 | everything a slice of a sorted set leaves out ranks after everything it keeps |
| Models.LineTotal | backend_django/shop/models.py:190-194 | price times quantity, 0 when either is missing |
| Models.ItemsTotal | backend_django/shop/serializers.py:310-322 | non-negative when every line total is, and 0 when every line total is 0 |
| Models.ItemsTotalAppend | backend_django/shop/models.py:190-194 | the total of two lists of lines is the sum of their totals |
| Models.ItemsTotalNonNegative | backend_django/shop/models.py:187-188 | lines with non-negative prices and quantities give a non-negative total |
| Models.OrderNumberFor | backend_django/shop/models.py:174 | the prefix followed by the counter padded to at least six digits |
| Models.OrderNumberSuffix | backend_django/shop/models.py:174-180 | the digits after the prefix read back as the counter stored with it |
| Models.OrderNumberInjective | backend_django/shop/models.py:176-178 | different counters give different numbers under one prefix |
| Models.TakenCounterBounded | backend_django/shop/models.py:176-178 | a taken number bounds its counter, so the search for a free number ends |
| Models.SiteSetting.constructor | backend_django/shop/models.py:133-134 | prefix "ORD-", counter 0 |
| Models.OrderRecord.constructor | backend_django/shop/models.py:148-159 | no key, no number, status "pending", total 0 |
| Models.OrderRecord.Label | backend_django/shop/models.py:161-163 | "Order " and the number, or `#` and the key when there is none, then " - " and the customer's name |
| Models.OrderRecord.Save | backend_django/shop/models.py:165-181 | an order without a number gets the prefix and a counter above the old one, not among the existing numbers, and the counter is stored; a numbered order keeps its number and the counter is untouched |
| Models.NextFreeCounter | backend_django/shop/models.py:171-177 | the counter is above the stored one, its number is not taken, and every number between them is taken |
| Serializers.LowStockHasStock | backend_django/shop/serializers.py:59-66 | low stock implies a known positive quantity within the threshold, and for an in-stock product implies availability |
| Serializers.ImageUrl | backend_django/shop/serializers.py:30-38 | the uploaded image, else a non-empty `image_url`, else the placeholder |
| Serializers.ImageUrlNonEmpty | backend_django/shop/serializers.py:30-38 | with a non-empty placeholder every product has an image URL |
| Serializers.ProductJson | backend_django/shop/serializers.py:23-66 | the id, the price with two decimals, both flags, the effective image URL, and the template exactly when there is one |
| Serializers.SectionCandidates | backend_django/shop/serializers.py:102-104 | a category section draws exactly the products of its category; any other section draws all |
| Serializers.SectionProducts | backend_django/shop/serializers.py:101-111 | at most `limit` products, exactly `min(limit, candidates)`, all candidates, in the section's ordering |
| Serializers.SectionProductsAreTheTop | backend_django/shop/serializers.py:104-111 | a candidate left out ranks after every product shown |
| Serializers.SourceProducts | backend_django/shop/serializers.py:134-146 | exactly `min(limit, n)` products, `n` the products of the source's category; only products of that category, in the source's ordering |
| Serializers.SourceCandidates | backend_django/shop/serializers.py:134 | exactly the products of the source's category |
| Serializers.SourceProductsAreTheTop | backend_django/shop/serializers.py:135-146 | a product of the category that the source leaves out ranks after every product it contributes |
| Serializers.GeneratedSlides | backend_django/shop/serializers.py:133-158 | every generated slide is the slide of a catalogue product |
| Serializers.ProductLinkNamesProduct | backend_django/shop/serializers.py:156 | the text after "/product/" reads back as the id |
| Serializers.ProductSlide | backend_django/shop/serializers.py:149-158 | the product's id, name, image or `image_url`, its link, order 0 |
| Serializers.SlidesOf | backend_django/shop/serializers.py:147-158 | one slide per product, in order |
| Serializers.AppendSlides | backend_django/shop/serializers.py:147-158 | the slides of the products appended to `gen` |
| Serializers.GetSlides | backend_django/shop/serializers.py:128-159 | the manual slides in (order, id) order followed by each source's generated slides, sources in (order, id) order |
| Serializers.GeneratedSlidesShape | backend_django/shop/serializers.py:133-158 | every generated slide is a catalogue product's slide with order 0, and there are at most the sum of the limits |
| Serializers.ManualSlidesFirst | backend_django/shop/serializers.py:128-159 | the manual slides come first, all of them, in (order, id) order |
| Serializers.CarouselIds | backend_django/shop/serializers.py:202 | one id per section, in order |
| Serializers.FoundCarousels | backend_django/shop/serializers.py:205 | only carousels that exist, each for an id in the list |
| Serializers.FoundCarouselsComplete | backend_django/shop/serializers.py:205 | no existing carousel is dropped, and when all exist the list follows the ids one for one |
| Serializers.GetCarousels | backend_django/shop/serializers.py:198-206 | at most one carousel per section; each is the existing carousel of some section, and every section's existing carousel appears; when every section's carousel exists, the k-th carousel is that of the k-th section in (order, id) order |
| Serializers.FoundCarouselsAppend | backend_django/shop/serializers.py:205 | the comprehension keeps the order of the ids: it distributes over concatenation |
| Serializers.GetCarouselsInSectionOrder | backend_django/shop/serializers.py:199-205 | the result is the comprehension over the carousel ids of the sections arranged in (order, id) order |
| Serializers.GetCarouselsComplete | backend_django/shop/serializers.py:198-206 | a section whose carousel exists has it in the configuration |
| Serializers.CreatedQuantity | backend_django/shop/serializers.py:313 | at least 1; an absent or zero quantity becomes 1 |
| Serializers.CreatedItem | backend_django/shop/serializers.py:312-317 | the product, the quantity as above, the price as sent or else the product's |
| Serializers.CreatedItems | backend_django/shop/serializers.py:311-317 | one line per input, in order |
| Serializers.Create | backend_django/shop/serializers.py:292-324 | a fresh "pending" order whose total is the sum of its created lines; a non-empty order number sent by the client is kept and the counter untouched, otherwise the counter advances and a number is generated; a number that passes the uniqueness check, or a generated one, is not among the existing numbers |
| Serializers.SaveLines | backend_django/shop/serializers.py:310-322 | the lines created from the input, in order, and the running total is the sum of price times quantity over them |
| Serializers.CreatedTotal | backend_django/shop/serializers.py:310-322 | the stored total is the sum of price times quantity over the lines as sent, with the defaults |
| Views.Param | backend_django/shop/views.py:19 | `query_params.get`: the value of the last pair with the key (no later pair has it); none when the key does not occur |
| Views.ParamIsLookup | backend_django/shop/views.py:19 | where every key occurs once, the server's value is the client's `searchParams.get` value |
| Views.ListingOrder | backend_django/shop/views.py:40-48 | none exactly when the lower-cased ordering is not one of the four names |
| Views.Listing | backend_django/shop/views.py:17-49 | never longer than the catalogue |
| Views.GetQueryset | backend_django/shop/views.py:17-49 | the filters one after another, then the ordering: the listing |
| Views.FilterIf | backend_django/shop/views.py:17-39 | a filter step gives the products that pass the test; an inactive step, whose test passes everything, gives them all |
| Views.KeepAll | backend_django/shop/views.py:20-35 | a filter every element passes changes nothing, as a skipped filter |
| Views.FilterChain | backend_django/shop/views.py:17-39 | filters applied one after another keep what their conjunction keeps |
| Views.ListingMembers | backend_django/shop/views.py:17-49 | the listing holds exactly the products that pass every filter the query asks for |
| Views.ListingOrdered | backend_django/shop/views.py:40-49 | the listing is in the requested ordering, and by id when none of the four is named |
| Views.OrderingIgnoresCase | backend_django/shop/views.py:40 | "NEWEST" orders like "newest" |
| Views.RequestedUsername | backend_django/shop/views.py:89-90 | the stripped username, or the stripped email when that is empty |
| Views.LastAt | backend_django/shop/views.py:98 | the position of the last '@', with no '@' after it, or -1 exactly when there is none |
| Views.NormalizeEmail | backend_django/shop/views.py:98 | `normalize_email`: same length; an address without '@' is kept; the part up to the last '@' is kept and the rest lower-cased; equal to the input up to case |
| Views.DomainLowered | backend_django/shop/views.py:98 | lowering the domain keeps the local part, the length and the address up to case |
| Views.Register | backend_django/shop/views.py:87-99 | "Email and password required" exactly for a missing email or password; then "User already exists" exactly when the username or email is taken up to case; otherwise the new user, whose email is the stripped email with its domain lower-cased by `create_user` |
| Views.RegisterKeepsAccountsDistinct | backend_django/shop/views.py:96-98 | registration keeps usernames and emails distinct up to case |
| Views.FirstWithEmail | backend_django/shop/views.py:116 | the first user in key order whose email matches up to case |
| Views.Login | backend_django/shop/views.py:106-124 | "Credentials required" for missing input; otherwise the identifier as a username, then as the first matching user's email; else "Invalid credentials" |
| Views.LoginByEmail | backend_django/shop/views.py:113-118 | signing in by email succeeds when the first account with that email accepts the password |
| Views.LoginUnknownFails | backend_django/shop/views.py:121-122 | without a matching account login fails with "Invalid credentials" |
| Views.OrdersFor | backend_django/shop/views.py:143-152 | newest first; exactly the orders whose email equals the stripped email up to case, or all when it is empty |
| Admin.StockMessages | backend_django/shop/admin.py:24-34 | the warning exactly for a watched product with `0 < qty <= threshold`; the error exactly for a watched product with quantity 0; never both |
| Admin.LowStockText | backend_django/shop/admin.py:30 | the warning names the quantity left and the threshold, each reading back from the text |
| Admin.CountReadsBack | backend_django/shop/admin.py:59 | a count written between two texts reads back from the message |
| Admin.StockMessagesAgreeWithFlags | backend_django/shop/admin.py:27-32 | a warning iff notify, in stock and the serializer's low-stock flag; an error iff notify, in stock, quantity 0 and so unavailable |
| Admin.CloneOf | backend_django/shop/admin.py:46-55 | name plus " (Copy)"; description, price, image URL, image, categories and `in_stock` copied; other fields at their defaults |
| Admin.CloneIsUnavailable | backend_django/shop/admin.py:46-55 | a clone has stock 0, so it is unavailable and not low on stock |
| Admin.CloneProducts | backend_django/shop/admin.py:43-59 | one clone per selected product, in order, and "Cloned n product(s)" |
| Admin.CountText | backend_django/shop/admin.py:59 | the action report "Cloned n product(s)" (also "Updated n product(s)" and "Marked n order(s) as" a status), the count reading back as n |
| Admin.BulkUpdates | backend_django/shop/admin.py:62-76 | the category only when it exists; `in_stock` only for "true" or "false"; the price only when non-empty |
| Admin.BuildUpdates | backend_django/shop/admin.py:62-76 | the dictionary filled field by field is `BulkUpdates` |
| Admin.PriceCents | backend_django/shop/admin.py:80 | a price text accepted only as a decimal with at most two places, exactly that many cents |
| Admin.BulkUpdate | backend_django/shop/admin.py:77-83 | no updates: nothing changes and "No changes applied"; otherwise every selected row takes the updates, other rows stay, and "Updated n product(s)" |
| Admin.BulkUpdateFrame | backend_django/shop/admin.py:80 | unselected rows unchanged; selected rows change only in the fields being updated |
| Admin.RecalcTotal | backend_django/shop/admin.py:343-351 | the total becomes the sum of the line totals; key, status, name and prefix kept; a numbered order keeps its number and the counter; an unnumbered one gets the first free number above the counter, and the counter advances to it |
| Admin.MarkOrders | backend_django/shop/admin.py:362 | selected rows get the status, every other row and column stays, and the count is the number of selected rows |
| Admin.MarkAction | backend_django/shop/admin.py:361-374 | the status update and "Marked n order(s) as status" |
| Admin.MarkOrdersIdempotent | backend_django/shop/admin.py:361-374 | marking twice is marking once; id, total, email and number are kept |
| Admin.LineTotalDisplay | backend_django/shop/admin.py:317-321 | "$" followed by the line total |
| Admin.LineTotalDisplayReadsBack | backend_django/shop/admin.py:320 | the text after "$" reads back as price times quantity |
| Agreement.ClientFlagsAgree | frontend/src/components/ProductCard.tsx:46-47 | the client's fallback flags equal `get_is_available` and `get_is_low_stock`, and a serialized product shows the server's flags |
| Agreement.ListedPriceReachesClient | frontend/src/api.ts:17 | a serialized product reaches the client at its stored price |
| Agreement.ReceivedItem | backend_django/shop/serializers.py:312-314 | a line with a numeric price is read as its product, quantity and price; a `NaN` price, sent as `null`, fails the required, non-null price field |
| Agreement.Received | backend_django/shop/serializers.py:286 | the payload is accepted exactly when every line has a numeric price, and then gives one input per line, in order |
| Agreement.SentTotalIsCartTotal | backend_django/shop/serializers.py:310-322 | with numeric prices, the total of the lines the server receives equals the cart page's total |
| Agreement.CheckoutTotalAgrees | frontend/src/pages/Checkout.tsx:40-74 | with numeric prices the payload is accepted, and the total the server stores for the created order is the checkout page's total |
| Agreement.NaNPriceCreatesNoOrder | backend_django/shop/models.py:188 | a cart item whose price is `NaN` makes the server refuse the whole payload, so no order is created |
| Agreement.RefusedOrderMessage | frontend/src/api.ts:163-164 | a refused order without a `detail` shows "Failed to create order" |
| Agreement.OrderIdReachesPayment | frontend/src/pages/Checkout.tsx:75 | the payment link carries the order id, and the payment page reads it back |
| Agreement.ProductQueryUnique | frontend/src/api.ts:8-13 | no key repeats in the listing query, so the server's value for every key is the client's |
| Agreement.BoundTextIsExact | frontend/src/api.ts:11-12 | `String(x)` of a bound parses on the server to exactly the bound |
| Agreement.PriceBoundsSurviveQuery | backend_django/shop/views.py:28-39 | a bound sent by the client passes a product exactly when its price is at least the minimum or at most the maximum; no bound passes everything |

## Left out

- I/O and scheduling are not modelled.
  - Fetch calls, `Promise.all`, `navigate`, `alert` and `scrollTo` become parameters or response values.
  - Timers and resize listeners become one method call per tick or resize.
  - JSX rendering is left out.
- The ORM, transactions and `select_for_update`, `authenticate` and `login`, and password hashing are left out.
  - Tables are sequences or maps, and existing order numbers a finite set.
  - Authentication is a function parameter.
- The concurrency `Order.save` guards against with a transaction is not modelled.
- `JSON.parse` and `JSON.stringify` are abstracted.
  - A stored key holds an id sequence or an unparsable marker.
  - `localStorage.setItem` never throws.
- An empty stored string reads like a missing key, because every reader tests `!raw`.
- Money:
  - `Number()` is exact only on signed decimals with at most two fraction digits.
  - Exponents, whitespace, hex and other fraction lengths read as `NaN`.
  - Floating-point rounding is not modelled.
- Views.MatchesMin: reads a bound as a signed decimal of digits and at most one point.
  - Python's `Decimal` also accepts exponents, surrounding whitespace and underscores, and those are treated here as no bound.
  - The same applies to `Views.MatchesMax`.
- Views.NormalizeEmail: lower-cases the domain with ASCII case folding, where Python's `str.lower` folds all of Unicode. `normalize_username`'s NFKC normalisation of the username is not modelled.
- Text.Lower: is ASCII case folding; the database's Unicode case-insensitive comparison is not modelled.
  - `str.isdigit` is ASCII digits.
  - String lengths count code points, not UTF-16 units.
- Admin.BulkUpdate: refuses a price that is not a decimal with at most two places.
  - The admin action form also limits a price to ten digits; that check is not modelled.
- Admin.BulkUpdates: a category id that is not a run of digits is treated as a missing category.
  - Only the action form's category field stands in front of it.
- Admin.CloneProducts: takes the new rows' keys as a parameter; `bulk_create` assigns them in the database.
- Serializers.ProductJson: keeps only the `show_badges` flag of the style template.
  - Colours, radii and sizes are presentation and are not modelled.
- Serializers.GetCarousels: the carousel serializer's own fields are taken as given.
  - Only the selection and order of carousels is modelled.
  - The `get_carousel_sections` and `get_primary_menu` serializers are not part of this model.
- The `ProductViewSet.clone` action is not part of this model, nor are the category tree, home configuration, logout, `me`, CSRF and bootstrap views.
- The browser's form validation is not modelled.
  - The inputs carry `required` and `type="email"`: Checkout.tsx, Register.tsx, Login.tsx and the card fields of Payment.tsx.
  - The browser blocks a submit that breaks them before the handler runs.
  - `CheckoutPage.CheckoutView.PlaceOrder`, `AuthPages.RegisterView.Submit`, `AuthPages.LoginView.Submit` and `PaymentPage.PaymentView.Pay` are modelled as the handlers alone, on any form state. So `PlaceOrder` can send an empty email, and `AuthPages.LoginError`'s empty-password branch is not reachable from the page.
- ProductPage.ProductView.ToggleFav: sets the cart count to the size of the favourites set, as the page does.
- Agreement.CheckoutTotalAgrees: requires every cart price to be a number.
  - A `NaN` price counts as 0 on the client's total, but `JSON.stringify` sends it as `null`. The server's required, non-null price field then refuses the whole order, as `Agreement.NaNPriceCreatesNoOrder` states.
- Api.CreateOrder, Api.GetOrder, Api.ListOrdersByEmail, Api.UpdateOrder: each reads the body with `res.json()` before testing `res.ok`.
  - The body is modelled as already parsed. An error response whose body is not JSON (an HTML error page) makes the real call reject with the parser's `SyntaxError` instead of the detail or fallback message. That case is not modelled.
- Serializers.Create: the uniqueness check on a supplied order number runs before `create`, in validation, and is the predicate `OrderNumberAccepted`. The 30-character limit on the number is not modelled.
- Uri.DecodeEncode: `decodeURIComponent` works on code points here, not UTF-16 units.
  - Lone surrogates are not modelled.
