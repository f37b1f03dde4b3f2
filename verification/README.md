# fairsart storefront rules in Dafny

The fairsart storefront is a React front end over a remote backend. This
project models the thin layer of pure client-side rules underneath the
pages, and proves properties of that model. The layer covers:

- how the cart query enriches raw cart lines with live product data, and
  the totals and badge count derived from those lines;
- the checkout contact-form validator (including its email pattern) and the
  admin product-form validator with its 5 MiB image limit;
- the decisions every page handler makes: which backend mutation to start,
  where to navigate, which view to show;
- the query cache: which keys each mutation invalidates on success, under
  TanStack Query's prefix matching of keys;
- the catalog's case-insensitive search.

Every handler is a pure function returning the effects it would perform
(`Effects.Action`: start a mutation, navigate, log in, clear the identity).
What the backend answers is a parameter (`Reply`, `backendOk`, a product
`lookup`); nothing about the backend's own behaviour is invented. Prices
and quantities are unbounded integers (cents).

Modules, one per source file plus shared ones:

| module | file | models |
|---|---|---|
| `Backend`, `Effects` | backend.dfy | the backend's records (`backend.d.ts`) and handler effects |
| `Text` | text.dfy | `trim`, `toLowerCase`, `includes`, the ECMAScript whitespace set |
| `Queries` | queries.dfy | `hooks/useQueries.ts` |
| `CartTotals` | totals.dfy | the `reduce` totals on Cart, Checkout and Header |
| `Email` | email.dfy | the checkout email regular expression |
| `CheckoutPage` | checkout.dfy | `pages/Checkout.tsx` |
| `CartPage` | cart.dfy | `pages/Cart.tsx` |
| `Header` | header.dfy | `components/Header.tsx` |
| `ProductDetail` | product_detail.dfy | `pages/ProductDetail.tsx` |
| `ProductCatalog` | product_catalog.dfy | `pages/ProductCatalog.tsx` |
| `AdminPanel` | admin_panel.dfy | `pages/AdminPanel.tsx`, and the admin gate both admin pages share |
| `AdminProductForm` | admin_product_form.dfy | `pages/AdminProductForm.tsx` |

## Model

| member | source | states |
|---|---|---|
| Effects.Calls | src/frontend/src/hooks/useQueries.ts:180-183 | the backend operations a handler starts are exactly the `Mutate` effects it returns |
| Effects.CallsConcat | src/frontend/src/pages/Checkout.tsx:50-65 | the operations of effects run one after another are the first effects' operations followed by the second's, in order and with every repetition |
| Effects.SingleCall | src/frontend/src/pages/Checkout.tsx:59-65 | a handler whose first effect is a mutation and whose other effects are not starts exactly that one operation |
| Effects.NoCallNoOps | src/frontend/src/pages/Checkout.tsx:53-56 | a handler with no mutation effect starts no operation |
| Text.Trim | src/frontend/src/pages/Checkout.tsx:32 | the trimmed string is empty exactly when the input is all whitespace |
| Text.TrimIsSlice | src/frontend/src/pages/Checkout.tsx:32 | the trimmed string is a contiguous slice of the input with no whitespace at either end |
| Text.TrimStripsEnds | src/frontend/src/pages/Checkout.tsx:32 | the trimmed string is the input with only leading and trailing whitespace removed: some `s[i..j]` with nothing but whitespace before `i` and after `j` |
| Text.LowerChar | src/frontend/src/pages/ProductCatalog.tsx:14 | an ASCII capital maps to the same letter in lower case (same position in the alphabet) and every other character is unchanged |
| Text.LowerHasNoCapitals | src/frontend/src/pages/ProductCatalog.tsx:14-15 | a lower-cased string keeps its length, has no ASCII capital left, and differs from the input only where the input had a capital, which became the same letter in lower case |
| Text.IncludesEmpty | src/frontend/src/pages/ProductCatalog.tsx:14-15 | every string includes the empty string |
| Queries.Enrich | src/frontend/src/hooks/useQueries.ts:150-167 | one enriched line per cart line, in cart order; each keeps its product id and quantity; it takes the product's price and name when the lookup resolved, and price 0 with "Unknown Product" when it threw |
| Queries.StripEnrichment | src/frontend/src/hooks/useQueries.ts:154-164 | enrichment only adds fields: stripping it gives back the cart lines exactly |
| Queries.EnrichConcat | src/frontend/src/hooks/useQueries.ts:150-151 | enrichment is line by line, so it distributes over concatenation and keeps order |
| Queries.ReadCart | src/frontend/src/hooks/useQueries.ts:146-169 | no actor gives an empty cart; the read fails exactly when `getCart` fails; a failed product lookup never fails the read, and every line is enriched |
| Queries.EnabledReadsPassThrough | src/frontend/src/hooks/useQueries.ts:45-79 | while a query is enabled an actor exists, so the list, single-record and admin reads pass the backend's answer through and their no-actor fallbacks never apply |
| Queries.ProductQueryEnabled | src/frontend/src/hooks/useQueries.ts:78 | the product query runs only with a ready actor and a non-empty id, and never when the caller passes `enabled: false`; with a ready actor, a non-empty id and the option absent or true it does run |
| Queries.OrderQueryEnabled | src/frontend/src/hooks/useQueries.ts:252 | the order query runs only with a ready actor, and never for an empty order id; with a ready actor and a non-empty order id it does run |
| Queries.ProfileStatus | src/frontend/src/hooks/useQueries.ts:19-23 | the profile reads as loading while the actor is being created, and never as fetched without an actor; once the actor is settled the raw query's loading and fetched flags pass through |
| Queries.InvalidateAll | src/frontend/src/hooks/useQueries.ts:118-121 | invalidating several keys marks stale exactly the cached keys that one of them is a prefix of, and keeps the set of cached keys |
| Queries.RunMutation | src/frontend/src/hooks/useQueries.ts:180-188 | a request reaches the backend exactly when an actor exists; only a success changes the cache, and then it marks stale exactly the entries under the op's invalidated keys |
| Queries.CartMutationsInvalidateCart | src/frontend/src/hooks/useQueries.ts:185-187 | add, remove and clear mark stale exactly the entries under `['cart']`, and only on success |
| Queries.UpdateProductInvalidation | src/frontend/src/hooks/useQueries.ts:118-121 | a successful update marks `['products']` and `['product', id]` stale and leaves every other entry unchanged |
| Queries.AddOrDeleteLeavesProductEntries | src/frontend/src/hooks/useQueries.ts:134-136 | add and delete leave every `['product', id]` entry as it was, including the deleted product's |
| Queries.CheckoutLeavesOrderQueries | src/frontend/src/hooks/useQueries.ts:235-238 | a successful checkout marks the cart stale, but `['orders']` matches none of the order queries, so those entries are left as they were |
| CartTotals.FoldSumIsSum | src/frontend/src/pages/Cart.tsx:85 | the left fold with a start value gives the start value plus the plain sum |
| CartTotals.SumOfFront | src/frontend/src/pages/Cart.tsx:85 | summing from the front agrees with summing from the back |
| CartTotals.CartTotal | src/frontend/src/pages/Checkout.tsx:81 | the folded total equals the sum of the per-line amounts, and is non-negative when no price or quantity is negative |
| CartTotals.ItemTotal | src/frontend/src/components/Header.tsx:19 | the folded item count equals the sum of the line quantities |
| CartTotals.NonNegativeSum | src/frontend/src/pages/Cart.tsx:85 | a sum of non-negative amounts is non-negative |
| CartTotals.ItemTotalAtLeastLines | src/frontend/src/components/Header.tsx:19 | with every quantity at least 1, the item count is at least the number of lines, and positive exactly when there is a line |
| CartTotals.RepricedTotal | src/frontend/src/hooks/useQueries.ts:153-158 | because prices are read live, a price change on one line moves the total by exactly the price difference × quantity |
| Email.PatternIsWellFormed | src/frontend/src/pages/Checkout.tsx:38 | the regular expression accepts exactly the strings with no whitespace, exactly one '@', a non-empty local part, and a domain holding a '.' that is neither its first nor its last character |
| Email.MatchIsWellFormed | src/frontend/src/pages/Checkout.tsx:38 | every match of the pattern is well formed in that sense |
| Email.WellFormedMatches | src/frontend/src/pages/Checkout.tsx:38 | every well-formed address matches the pattern |
| Email.SplitHasOneAt | src/frontend/src/pages/Checkout.tsx:38 | a match holds exactly one '@' |
| Email.SplitHasNoWhitespace | src/frontend/src/pages/Checkout.tsx:38 | a match holds no whitespace |
| Email.OneAt | src/frontend/src/pages/Checkout.tsx:38 | in a string with a single '@', two different positions cannot both hold '@' |
| Email.PlainRunFacts | src/frontend/src/pages/Checkout.tsx:38 | a run of `[^\s@]` holds no '@' and no whitespace |
| Email.MatchedIsNotBlank | src/frontend/src/pages/Checkout.tsx:36-40 | an accepted address is never blank, so "required" and "invalid" never both apply |
| Email.MatchedHasNonSpace | src/frontend/src/pages/Checkout.tsx:36-40 | an accepted address has a non-whitespace character |
| Email.AcceptsExample | src/frontend/src/pages/Checkout.tsx:38 | "a@b.co" is accepted |
| Email.RejectsExample | src/frontend/src/pages/Checkout.tsx:38 | "not-an-email" is rejected |
| Email.RejectsPadded | src/frontend/src/pages/Checkout.tsx:36-38 | the pattern is matched against the untrimmed value, so a leading space makes any address invalid |
| CheckoutPage.RequiredFieldErrors | src/frontend/src/pages/Checkout.tsx:32-44 | name and address fail exactly when blank after trimming, each with its "required" message |
| CheckoutPage.EmailErrors | src/frontend/src/pages/Checkout.tsx:36-40 | the email fails exactly when the raw value does not match the pattern, with "Email is required" when blank and "Invalid email address" otherwise |
| CheckoutPage.FormValidIff | src/frontend/src/pages/Checkout.tsx:29-48 | the form is valid exactly when name and address are not blank and the email is well formed (no whitespace, one '@', a dot inside the domain) |
| CheckoutPage.NoErrorsIff | src/frontend/src/pages/Checkout.tsx:47 | the error map is empty exactly when no field has an entry |
| CheckoutPage.HandleSubmit | src/frontend/src/pages/Checkout.tsx:50-69 | an invalid form starts nothing; a valid one first starts a checkout carrying only the three form values and then no other call; it navigates to `/order-confirmation/<id>` exactly when valid and the checkout returned an id, and never after a failure; a valid submit's effects are exactly that checkout, followed by the confirmation navigation when an id came back |
| CheckoutPage.SubmitCalls | src/frontend/src/pages/Checkout.tsx:53-63 | a submit starts one checkout with the typed values exactly when the form is valid, whatever the backend answers |
| CheckoutPage.CheckoutScreen | src/frontend/src/pages/Checkout.tsx:71-81 | an unauthenticated visitor or an absent or empty cart is redirected to `/cart`; otherwise the summary lists price × quantity per line and a total equal to their sum |
| CartPage.SelectView | src/frontend/src/pages/Cart.tsx:46-121 | the login prompt comes before loading and emptiness checks; an absent or empty cart shows the empty state; otherwise Subtotal and Total both show the sum of price × quantity |
| CartPage.HandleUpdateQuantity | src/frontend/src/pages/Cart.tsx:28-35 | a quantity below 1 starts nothing; any other is sent once as the new absolute quantity through `addToCart` |
| CartPage.HandleRemove | src/frontend/src/pages/Cart.tsx:19-26 | removes exactly the given product's line, with one call |
| CartPage.HandleCheckout | src/frontend/src/pages/Cart.tsx:37-44 | an unauthenticated visitor is asked to log in with no navigation; otherwise the page goes to `/checkout` |
| CartPage.CardFor | src/frontend/src/pages/Cart.tsx:145-190 | a line whose product is loading or not found shows only a skeleton; otherwise the product with the line's quantity, and minus is disabled exactly at quantity ≤ 1 |
| CartPage.Press | src/frontend/src/pages/Cart.tsx:180-200 | a skeleton has no controls; every control starts at most one call, on the line's own product, and never requests a quantity below 1 |
| CartPage.StepperRequests | src/frontend/src/pages/Cart.tsx:180-200 | on a shown card minus requests quantity − 1 (nothing at ≤ 1), plus requests quantity + 1, and remove removes that line |
| Header.CartItemCount | src/frontend/src/components/Header.tsx:19 | the badge count is 0 without cart data and the sum of the line quantities otherwise |
| Header.BadgeShownIffLines | src/frontend/src/components/Header.tsx:82 | with every quantity at least 1, the badge is shown exactly when the cart data is present and has a line |
| Header.AdminLinkMatchesGate | src/frontend/src/components/Header.tsx:39-47 | for a signed-in user whose admin check has finished, the header's Admin link is shown exactly when the admin pages' gate grants access |
| ProductDetail.NameShownIffCanAdd | src/frontend/src/components/Header.tsx:72-77 | the header shows the user's name exactly when the product page's add-to-cart would start a call, and never while the profile set-up dialog is open |
| Header.AuthButtonFor | src/frontend/src/components/Header.tsx:90-97 | the button reads "Logging in..." and is disabled exactly while logging in; otherwise it reads "Logout" when authenticated and "Login" when not |
| Header.HandleAuth | src/frontend/src/components/Header.tsx:21-28 | signed in, it clears the identity and then navigates to `/`; otherwise it logs in; it never calls the backend |
| Header.ButtonSaysWhatClickDoes | src/frontend/src/components/Header.tsx:21-97 | an enabled button reading "Logout" clears the identity when clicked, and one reading "Login" starts a login |
| ProductDetail.HandleAddToCart | src/frontend/src/pages/ProductDetail.tsx:23-41 | an unauthenticated visitor is sent to log in; a signed-in user without a profile starts nothing; otherwise the only effect is one `addToCart(id, 1)` |
| ProductDetail.ProfileSetupBlocksAdding | src/frontend/src/pages/ProductDetail.tsx:21-33 | while the set-up dialog is open, adding to the cart starts nothing |
| ProductDetail.NoActorNoProfileSetup | src/frontend/src/hooks/useQueries.ts:19-23 | without an actor the set-up dialog never opens |
| ProductDetail.SelectView | src/frontend/src/pages/ProductDetail.tsx:43-68 | loading shows a skeleton; a finished lookup without a product shows "not found"; otherwise the product |
| ProductCatalog.FilterProducts | src/frontend/src/pages/ProductCatalog.tsx:13-16 | a product is kept exactly when its lower-cased name or description contains the lower-cased query; the result is an order-preserving subsequence of the catalog |
| ProductCatalog.FilterKeepsEveryCopy | src/frontend/src/pages/ProductCatalog.tsx:13-16 | the search keeps every copy of a matching product and no copy of any other |
| ProductCatalog.FilterIdempotent | src/frontend/src/pages/ProductCatalog.tsx:13-16 | filtering the result again with the same query changes nothing |
| ProductCatalog.EmptyQueryKeepsAll | src/frontend/src/pages/ProductCatalog.tsx:11-16 | the empty query (the initial state) keeps every product, in order |
| ProductCatalog.SearchIgnoresQueryCase | src/frontend/src/pages/ProductCatalog.tsx:14-15 | lower-casing the query first gives the same result |
| ProductCatalog.SelectView | src/frontend/src/pages/ProductCatalog.tsx:39-89 | loading shows skeletons; a non-empty result shows the grid; otherwise the empty state, whose message is the "no match" text exactly when a query was typed |
| ProductCatalog.NoProductsMessageMeansEmpty | src/frontend/src/pages/ProductCatalog.tsx:51-86 | with no query, "No products available yet." shows exactly when the catalog is absent or empty |
| AdminPanel.AdminAccess | src/frontend/src/pages/AdminPanel.tsx:40-71 | unauthenticated visitors get the login prompt whatever the admin data; then loading; only an answered true from the admin query is granted access |
| AdminPanel.NoActorNoAccess | src/frontend/src/hooks/useQueries.ts:47-48 | the admin check's no-actor answer never grants access |
| AdminPanel.SelectPane | src/frontend/src/pages/AdminPanel.tsx:90-166 | loading shows skeletons; the table is shown exactly when the list is present and non-empty, and lists the loaded products |
| AdminPanel.DeleteRow | src/frontend/src/pages/AdminPanel.tsx:31-38 | the delete confirmed on a row deletes exactly that row's product, with one call |
| AdminPanel.DeleteRefreshesListOnly | src/frontend/src/pages/AdminPanel.tsx:147 | a successful delete marks the product list stale but leaves the deleted product's own entry as it was |
| AdminProductForm.ProductQueryOnlyWhenEditing | src/frontend/src/pages/AdminProductForm.tsx:24-26 | the existing-product query runs exactly in edit mode with a ready actor |
| AdminProductForm.ChooseImage | src/frontend/src/pages/AdminProductForm.tsx:55-69 | no file keeps the selection; a file over 5 MiB is refused and the prior selection kept; any other file replaces it |
| AdminProductForm.SizeLimitIsInclusive | src/frontend/src/pages/AdminProductForm.tsx:58 | a file of exactly 5·1024·1024 bytes is accepted and one byte more is refused |
| AdminProductForm.ProductErrors | src/frontend/src/pages/AdminProductForm.tsx:71-94 | name and description fail exactly when blank after trimming; a blank price gets "Price is required" and a non-positive or unparsable one "Price must be a positive number"; the image is required only when creating |
| AdminProductForm.ProductFormValidIff | src/frontend/src/pages/AdminProductForm.tsx:71-94 | the form is valid exactly when name, price and description pass and there is a file or the page is in edit mode |
| AdminProductForm.ImageToSend | src/frontend/src/pages/AdminProductForm.tsx:109-120 | the new file if one was chosen, else the existing product's image, else nothing |
| AdminProductForm.ProductOp | src/frontend/src/pages/AdminProductForm.tsx:122-139 | edit mode updates the product the route names and create mode adds one; both send the typed name and description, the given price in cents and the chosen image |
| AdminProductForm.SubmitProduct | src/frontend/src/pages/AdminProductForm.tsx:96-146 | an invalid form, one with no image to send, or one whose price conversion throws starts nothing; otherwise the first effect is that add or update and no other call follows; it navigates to `/admin` exactly when the mutation was started and succeeded; a submittable form's effects are exactly that mutation, followed by the navigation on success |
| AdminProductForm.OnlyEditModeLacksImage | src/frontend/src/pages/AdminProductForm.tsx:88-120 | a valid submit starts nothing exactly when its price does not convert to cents, or in edit mode with no new file and no loaded product |
| AdminProductForm.CreateNeedsFile | src/frontend/src/pages/AdminProductForm.tsx:88-90 | a valid create-mode form has a file |
| AdminProductForm.CreateAddsChosenFile | src/frontend/src/pages/AdminProductForm.tsx:109-139 | a valid create-mode submit adds exactly the typed product with the chosen file as its image when its price converts, and starts nothing when it does not |
| AdminProductForm.FormAccess | src/frontend/src/pages/AdminProductForm.tsx:148-182 | the panel's gate: the login prompt exactly when unauthenticated, the placeholder also while an edited product loads, and access only for an answered true |
| AdminProductForm.CreateModeIgnoresProductLoading | src/frontend/src/pages/AdminProductForm.tsx:159 | in create mode the product query's loading flag never holds up the form |

## Behaviour of the code as written

Three properties of the code stand out. They are modelled as written, not
corrected:

- `useDeleteProduct` invalidates only `['products']`. A cached
  `['product', id]` for the deleted product stays fresh
  (`Queries.AddOrDeleteLeavesProductEntries`, `AdminPanel.DeleteRefreshesListOnly`).
- `useCheckout` invalidates `['orders']`, but no query uses that key. The
  order queries use `['order', id]`, `['myOrders']` and `['allOrders']`, so
  none of them is refreshed by a checkout (`Queries.CheckoutLeavesOrderQueries`).
- The checkout page treats a cart that is still loading like an empty one
  and redirects to `/cart` (`CheckoutPage.CheckoutScreen`).

The cart page's line card also looks its product up again through
`useGetProduct`. It shows that product's name and price, not the enriched
line's (`CartPage.CardFor`).

## Left out

- Number formatting: `(x / 100).toFixed(2)` and other display formatting is not modelled.
- Number precision: totals are exact integers. `Number(bigint)` precision loss above 2^53 is not modelled.
- AdminProductForm.ProductErrors: JavaScript's `Number(price)` parsing is the parameter `parsesPositive`, so which strings count as positive numbers is not modelled.
- AdminProductForm.SubmitProduct: `BigInt(Math.round(Number(price) * 100))` is the parameter `toCents`, because the model has no floating point; its `None` stands for the `BigInt` throw when the cents overflow to `Infinity`, but which prices do so is not modelled.
- Text.Lower: only ASCII letters are case-mapped; Unicode case mapping is not modelled.
- Trim and `\s` use the ECMAScript whitespace set. Unicode property lookup is not modelled beyond that fixed set.
- Async and concurrency are not modelled: query scheduling, retries, `isPending`, interleaved mutations, and `Promise.all` apart from its order.
- A mutation's outcome is the parameter `backendOk` and a query's answer is a `Reply`. Backend semantics (cart line merging, order creation, role checks) are not modelled because the backend is not part of this model.
- Image upload, `FileReader` previews and upload progress are not modelled: they are browser I/O.
- Internet Identity is modelled only as the `Login` and `ClearIdentity` effects; toasts are not modelled; navigation is an effect value only.
- Header.AuthButtonFor: the identity provider's login status is reduced to "logging in" or not, the only distinction the header makes.
- The form-state effect in AdminProductForm.tsx that copies a loaded product into the form (lines 44-53) is not modelled: it is UI state.
- Home, Footer, OrderConfirmation and the App route table are not part of this model: they only render fetched data or configure the router.
