# Elizabeth Deco storefront: cart and checkout model

A Dafny model of the two pieces of logic in the Elizabeth Deco storefront
client that carry invariants:

- **The cart/stock store** of the storefront page (`deco-front/src/App.tsx`).
  It keeps a product list whose `stock` shrinks as units go into the cart.
  It also keeps the cart, an ordered list of lines keyed by product id. Five
  handlers change them: `addToCart`, `increment`, `decrement`,
  `removeFromCart` and `clearCart`. The page derives the cart `total` and the
  badge count. The model is the class `CartStore.Store`. Its fields are
  `products`, `cart`, the last `notice` and a ghost copy of the catalog as
  loaded. Each handler is a method whose new state is a pure function from
  module `Cart`. `Store.Valid()` (`Cart.Consistent`) is the conservation law:
  for every product, stock plus the units its line reserves equals the
  loaded stock. It also records that lines are keyed by product id, hold at
  least one unit and carry their product's price. Every handler keeps it.
- **The checkout page** (`deco-front/src/pages/Checkout.tsx`). Module
  `Checkout` holds its pure parts:
  - whitespace and `trim` as JavaScript defines them;
  - `validarEmail`, proved equal to the language of its regular expression;
  - `camposValidos`;
  - the name-input character filter;
  - the check order of `pagar`;
  - the `{cliente, email, items}` payload;
  - how the gateway's answer is read.

  The class `CheckoutPage.Page` is the page's state machine. Its states are
  Editing, Submitting (`loading`) and Redirecting (`location` set), with the
  last notice kept as a field. `pagar` is asynchronous, so it is split in
  two. `Pay` runs when the button is pressed. `Complete` runs when the
  gateway answers.

Files: `wrappers.dfy` (Option), `cart.dfy` (module `Cart`), `cart_store.dfy`
(module `CartStore`), `checkout.dfy` (module `Checkout`), `checkout_page.dfy`
(module `CheckoutPage`).

Modelling choices:

- Each React handler is one atomic step on one snapshot of the state.
- Prices are integers (cents), so totals are exact.
- The gateway call becomes an input, `GatewayResponse`. It is either a
  response body whose `init_point` is present or missing, or a network
  error.
- The catalog fetch becomes the `Store` constructor's argument.
- The `localStorage` hand-off becomes the value that
  `Store.ProceedToCheckout` returns and `Page`'s constructor takes.

## Model

| member | source | states |
|---|---|---|
| `Cart.FindProduct` | deco-front/src/App.tsx:79 | The product `find` returns the first product with the requested id: it has that id and every earlier product has another. It returns nothing only when no product has that id. |
| `Cart.FindLine` | deco-front/src/App.tsx:111 | The cart `find` returns the first line with the requested id: it has that id and every earlier line has another. It returns nothing only when no line has that id. |
| `Cart.AddLine` | deco-front/src/App.tsx:56-64 | Adding a product that already has a line keeps the cart's length and order. That line gains exactly one unit and every other line is unchanged. Adding a product without a line keeps the old lines as a prefix and appends `{...p, quantity: 1}`. |
| `Cart.Bump` | deco-front/src/App.tsx:59-61 | The quantity `map` keeps the cart's length and order. Only the `quantity` field can change. Lines of other ids are untouched, and lines of the id move by exactly `delta`. The same `map` appears at App.tsx:86-88 and App.tsx:104-106. |
| `Cart.BumpAt` | deco-front/src/App.tsx:86-88 | With lines keyed by id, the quantity `map` changes exactly the one line of that id, in place. |
| `Cart.AdjustStock` | deco-front/src/App.tsx:68-70 | The stock `map` keeps the product list's length and order. Only the `stock` field can change. Products of other ids are untouched, and products of the id move by exactly `delta`. The same `map` appears at App.tsx:92-94, 114-116 and 127-131. |
| `Cart.KeepPositive` | deco-front/src/App.tsx:107 | The `quantity > 0` filter keeps only lines of the cart with at least one unit, and never grows the cart. `Cart.KeepPositiveKeeps` states that it keeps all of them. Order is stated by `Cart.KeepPositiveAppend` and `Cart.DecrementAt`. |
| `Cart.KeepPositiveKeeps` | deco-front/src/App.tsx:107 | The `quantity > 0` filter keeps every line that has at least one unit. |
| `Cart.KeepPositiveAppend` | deco-front/src/App.tsx:107 | The `quantity > 0` filter works line by line in order: filtering `a + b` is filtering `a` followed by filtering `b`. |
| `Cart.DecrementLine` | deco-front/src/App.tsx:102-108 | After `decrement` every remaining line has at least one unit. Every other positive line is kept, no line of another id appears, and the cart never grows. |
| `Cart.DecrementAt` | deco-front/src/App.tsx:102-108 | With lines keyed by id and positive, `decrement` on the line at position `k` lowers that line by one in place. If the line held a single unit, exactly that line is dropped and the others keep their order. |
| `Cart.RemoveLine` | deco-front/src/App.tsx:134 | The `id !== id` filter keeps only lines of the cart of other products, and never grows the cart. `Cart.RemoveLineKeeps` states that it keeps all of them. |
| `Cart.RemoveLineKeeps` | deco-front/src/App.tsx:134 | The `id !== id` filter keeps every line of another product. |
| `Cart.RemoveLineAppend` | deco-front/src/App.tsx:134 | The removal filter works line by line in order: filtering `a + b` is filtering `a` followed by filtering `b`. |
| `Cart.RemoveLineSplit` | deco-front/src/App.tsx:134 | Removing an id carried by a single line, with only other ids around it, leaves the lines around it in order. |
| `Cart.RemoveLineAt` | deco-front/src/App.tsx:134 | With lines keyed by id, removing the id of the line at position `k` drops exactly that line and keeps the others in order. |
| `Cart.RestoreAll` | deco-front/src/App.tsx:139-144 | The `clearCart` `map` keeps the product list's length and order. Each product gets back the quantity of the line that `find` returns, or nothing without a line, and no other field changes. With positive lines, no stock goes down. |
| `Cart.QtyOfIsLineQuantity` | deco-front/src/App.tsx:141-142 | When lines are keyed by id, the units reserved for a product equal the quantity of the line that `find` returns, or 0 when there is no line. |
| `Cart.QtyOfBump` | deco-front/src/App.tsx:85-89 | The quantity `map` changes the reservation of the targeted id by `delta`, and only when that id has a line. Other ids are unaffected. |
| `Cart.QtyOfKeepPositive` | deco-front/src/App.tsx:107 | Filtering out lines with no units changes no product's reservation. |
| `Cart.QtyOfRemoveLine` | deco-front/src/App.tsx:134 | After the removal filter, the removed id reserves nothing and every other id reserves what it did. |
| `Cart.QtyOfAddLine` | deco-front/src/App.tsx:56-64 | Adding product `p` reserves exactly one more unit of `p` and nothing else. |
| `Cart.UniqueKeepPositive` | deco-front/src/App.tsx:102-108 | Decrementing keeps the cart keyed by id: no two lines share a product. |
| `Cart.UniqueRemoveLine` | deco-front/src/App.tsx:134 | Removing keeps the cart keyed by id. |
| `Cart.UniqueDecrementLine` | deco-front/src/App.tsx:102-108 | The whole `decrement` update of the cart (lower, then drop empty lines) keeps it keyed by id. |
| `Cart.AddKeepsPrices` | deco-front/src/App.tsx:56-71 | A line created by `addToCart` copies the product as shown (`{...p, quantity: 1}`), so after the update every line still carries its product's price. |
| `Cart.DecrementKeepsPrices` | deco-front/src/App.tsx:101-117 | `decrement` changes only quantities and stock, so every remaining line still carries its product's price. |
| `Cart.RemoveKeepsPrices` | deco-front/src/App.tsx:125-134 | `removeFromCart` only drops a line and moves stock, so every remaining line still carries its product's price. |
| `Cart.KeepPositiveKeepsAll` | deco-front/src/App.tsx:107 | When every line has at least one unit, the filter keeps the cart as it is. |
| `Cart.AddLineKeepsLines` | deco-front/src/App.tsx:56-64 | Adding keeps the cart keyed by id and every line at one unit or more. |
| `Cart.AddKeepsConsistent` | deco-front/src/App.tsx:50-75 | A successful `addToCart` gives one unit to the cart and takes one from that product's stock. This keeps stock + reserved = loaded stock for every product. It also keeps stock non-negative, because the gate requires `stock > 0`. |
| `Cart.IncrementKeepsConsistent` | deco-front/src/App.tsx:78-98 | A successful `increment` on an existing line keeps the conservation invariant. |
| `Cart.DecrementKeepsConsistent` | deco-front/src/App.tsx:101-119 | `decrement` keeps the conservation invariant. It returns stock only if the line existed. On an id without a line the cart is unchanged. |
| `Cart.RemoveKeepsConsistent` | deco-front/src/App.tsx:122-135 | `removeFromCart` returns the line's whole quantity to stock and keeps the invariant. On an id without a line the cart is unchanged. |
| `Cart.RemoveAbsent` | deco-front/src/App.tsx:134 | Removing an id that has no line leaves the cart as it was. |
| `Cart.ClearRestoresCatalog` | deco-front/src/App.tsx:138-146 | `clearCart` adds every line's quantity back to its product's stock. This gives back exactly the catalog as loaded, and the empty cart is consistent with it. |
| `Cart.DecrementUndoesIncrement` | deco-front/src/App.tsx:85-118 | `increment(id)` then `decrement(id)` on an existing line restores both the cart and the product list. |
| `Cart.CountAndTotalAfterAdd` | deco-front/src/App.tsx:148 | When the lines of `p` carry `p`'s price, adding one unit of `p` raises the badge count by 1 and the `total` by `p`'s price. The store's invariant guarantees the hypothesis. |
| `Cart.CountBump` | deco-front/src/App.tsx:167 | Raising an existing line by one unit raises the badge count by 1 and the total by that line's price. |
| `Cart.Count` | deco-front/src/App.tsx:167 | With positive lines, the badge count is at least the number of lines. It is 0 exactly when the cart is empty. |
| `Cart.Total` | deco-front/src/App.tsx:148 | The cart `total` is never negative when no price or quantity is. |
| `CartStore.Store.constructor` | deco-front/src/App.tsx:19-20 | The page starts with the loaded products, an empty cart and no notice. The invariant holds. |
| `CartStore.Store.AddToCart` | deco-front/src/App.tsx:50-75 | With `stock <= 0`, only the out-of-stock notice changes. Otherwise the cart becomes `AddLine`, the product loses one unit, and the "added" notice shows. The badge count then rises by 1 and the total by the product's price. The invariant is kept. |
| `CartStore.Store.Increment` | deco-front/src/App.tsx:78-98 | With no product of that id, or one with `stock <= 0`, only the notice changes. Otherwise the line gains one unit and the product loses one. The badge count then rises by 1 and the total by the product's price. The invariant is kept. |
| `CartStore.Store.Decrement` | deco-front/src/App.tsx:101-119 | The line loses a unit and is dropped at zero. Stock rises by one only if the line existed. An absent id changes nothing. |
| `CartStore.Store.RemoveFromCart` | deco-front/src/App.tsx:122-135 | Stock regains the line's whole quantity and exactly that line is dropped. An absent id changes nothing. |
| `CartStore.Store.ClearCart` | deco-front/src/App.tsx:138-146 | Every line's quantity goes back to its product. The products equal the catalog as loaded, and the cart is empty. |
| `CartStore.Store.ProceedToCheckout` | deco-front/src/App.tsx:283-290 | An empty cart only shows the empty-cart notice. Otherwise the cart is handed to checkout unchanged. |
| `Checkout.Trim` | deco-front/src/pages/Checkout.tsx:21-22 | `trim()` gives the empty string exactly when the input is all whitespace. Otherwise the result starts and ends with a non-space character. |
| `Checkout.TrimInfix` | deco-front/src/pages/Checkout.tsx:32 | `trim()` returns a contiguous piece of the input with only whitespace before and after it. |
| `Checkout.TrimStart` | deco-front/src/pages/Checkout.tsx:32 | Stripping leading whitespace empties exactly an all-whitespace string. Otherwise the result starts with a non-space character. |
| `Checkout.TrimStartSuffix` | deco-front/src/pages/Checkout.tsx:32 | Stripping leading whitespace leaves a suffix of the input, and what was stripped is all whitespace. |
| `Checkout.TrimEnd` | deco-front/src/pages/Checkout.tsx:32 | Stripping trailing whitespace empties exactly an all-whitespace string. Otherwise the result ends with a non-space character. |
| `Checkout.TrimEndPrefix` | deco-front/src/pages/Checkout.tsx:32 | Stripping trailing whitespace leaves a prefix of the input, and what was stripped is all whitespace. |
| `Checkout.NameAccepted` | deco-front/src/pages/Checkout.tsx:102 | Matching `/^[a-zA-ZáéíóúÁÉÍÓÚüÜ\s]*$/` one character at a time accepts exactly the strings whose every character is in the class. The surname input uses the same test at Checkout.tsx:114. |
| `Checkout.IndexOf` | deco-front/src/pages/Checkout.tsx:17 | The position found is the first `@`, or the end when there is none. |
| `Checkout.SingleAt` | deco-front/src/pages/Checkout.tsx:17 | With a single `@`, no `@` follows it. |
| `Checkout.IndexOfAfter` | deco-front/src/pages/Checkout.tsx:17 | After a prefix without `@`, the first `@` is the one that ends the prefix. |
| `Checkout.OneAt` | deco-front/src/pages/Checkout.tsx:17 | Two parts without `@` joined by one `@` contain exactly one `@`. |
| `Checkout.PrefixToken` | deco-front/src/pages/Checkout.tsx:16-17 | In an address without whitespace, the non-empty part before the first `@` is a `[^\s@]+` token. |
| `Checkout.SliceToken` | deco-front/src/pages/Checkout.tsx:16-17 | A non-empty slice of a part without whitespace or `@` is a `[^\s@]+` token. |
| `Checkout.DotSplit` | deco-front/src/pages/Checkout.tsx:16-17 | A `.` strictly inside a part without whitespace or `@` splits it into two `[^\s@]+` tokens around the dot. |
| `Checkout.MatchedFromParts` | deco-front/src/pages/Checkout.tsx:16-17 | A token, then `@`, then a part without whitespace or `@` with a `.` strictly inside, is matched by the regular expression. |
| `Checkout.ValidEmailIsMatched` | deco-front/src/pages/Checkout.tsx:16-17 | Each email `validarEmail` accepts splits as `a@b.c` with `a`, `b` and `c` non-empty and free of whitespace and `@`. |
| `Checkout.MatchedIsValidEmail` | deco-front/src/pages/Checkout.tsx:16-17 | Each string of the form `a@b.c`, with those three parts non-empty and free of whitespace and `@`, is accepted. |
| `Checkout.ValidEmailMatchesPattern` | deco-front/src/pages/Checkout.tsx:16-17 | `validarEmail` accepts exactly the language of `/^[^\s@]+@[^\s@]+\.[^\s@]+$/`: no whitespace, one `@` after a non-empty part, and a `.` inside the part after it. |
| `Checkout.ValidEmail` | deco-front/src/pages/Checkout.tsx:16-17 | Every address `validarEmail` accepts has at least five characters (`a@b.c`) and is not blank, so it never trips the missing-fields check. |
| `Checkout.FieldsValid` | deco-front/src/pages/Checkout.tsx:20-24 | `camposValidos` holds exactly when both names have a non-space character, the email is in the language of `validarEmail`'s regular expression, and the cart has a line. |
| `Checkout.Check` | deco-front/src/pages/Checkout.tsx:32-43 | `pagar`'s checks all pass exactly when `camposValidos` holds, so the enabled button never meets a validation error. |
| `Checkout.CheckFirstFailure` | deco-front/src/pages/Checkout.tsx:32-43 | The missing-fields verdict is given exactly when a name or the email is blank. The email verdict is given exactly when the fields are present and the email is malformed. The empty-cart verdict is given exactly when the form is valid and the cart is empty. |
| `Checkout.VerdictMessage` | deco-front/src/pages/Checkout.tsx:33-41 | Each failed check shows a non-empty message. Only a passing verdict has none. |
| `Checkout.Items` | deco-front/src/pages/Checkout.tsx:47-52 | `items` has one item per cart line, in cart order. Each item carries its line's id, name, price and quantity. Its `price * cantidad` sum is the summary's `total` and its `cantidad` sum is the summary's count (Checkout.tsx:13-14). |
| `Checkout.BuildOrder` | deco-front/src/pages/Checkout.tsx:57-61 | `cliente` is the name, one space and the surname. The email goes as typed. The items ask for exactly the cart's total and unit count. |
| `Checkout.Outcome` | deco-front/src/pages/Checkout.tsx:64-74 | Only a non-empty `init_point` redirects, and it redirects to that URL. A missing or empty one shows "no link" and a network error shows "error connecting", neither navigating. |
| `CheckoutPage.Page.constructor` | deco-front/src/pages/Checkout.tsx:6-12 | The page opens with empty fields, not loading, no notice, no navigation and the handed cart. |
| `CheckoutPage.Page.EditNombre` | deco-front/src/pages/Checkout.tsx:100-105 | A new name is stored only if every character is an ASCII letter, one of `áéíóúÁÉÍÓÚüÜ`, or whitespace. Otherwise the old value stays. The stored names always satisfy the filter, and nothing else changes. |
| `CheckoutPage.Page.EditApellido` | deco-front/src/pages/Checkout.tsx:112-117 | The same filter applies to the surname. |
| `CheckoutPage.Page.EditEmail` | deco-front/src/pages/Checkout.tsx:125 | The email stores every edit unfiltered. |
| `CheckoutPage.Page.Pay` | deco-front/src/pages/Checkout.tsx:31-62 | A request is produced exactly when all checks pass, and it is `{nombre + " " + apellido, email, items}`. Each failing check shows its own message. The checks run in a fixed order (missing fields, email, empty cart), and `loading` is not set. |
| `CheckoutPage.Page.Complete` | deco-front/src/pages/Checkout.tsx:64-77 | A non-empty `init_point` navigates to it. Anything else shows its notice and does not navigate. `loading` is false afterwards, and the form and cart are unchanged. |
| `CheckoutPage.Page.SubmitEnabled` | deco-front/src/pages/Checkout.tsx:145 | The button is enabled exactly when no request is out and every check of `pagar` would pass. |
| `CheckoutPage.Page.Press` | deco-front/src/pages/Checkout.tsx:144-146 | While the button is disabled (`!camposValidos` or `loading`), a press changes nothing and sends nothing. When it is enabled, the request is always sent. The form, the notice and the location stay as they were. |

## Left out

- The catalog `fetch` and its field mapping, including the image URL (App.tsx:26-41). This is network I/O. The loaded list is the `Store` constructor's argument, and the image field is not modelled.
- `CartStore.Store.constructor` requires unique catalog ids. The catalog's ids are its keys, and conservation cannot hold without this.
- The timed dismissal of notices (`setTimeout` in `showNotify` and `showNotification`). This is timer behaviour. Only the last notice is kept.
- `localStorage` with `JSON.stringify`/`JSON.parse`. This is browser storage. The cart is passed as a value, and a missing or malformed stored cart is not modelled.
- The HTTP `POST` itself and `window.location.href`. These are network I/O and navigation. The gateway is an input value, and navigation is the `location` field.
- `console.error` calls, JSX rendering, routing, CSS and animations.
- Floating-point prices. Prices are integers, so `total` is exact.
- React's asynchronous `setState` and stale closures. For example, `decrement` reads `cart` but updates through `prev`. Each handler is one atomic step on one snapshot.
- Truthiness of `init_point`: only "missing" and "empty string" are modelled as falsy. Other falsy JSON values (`null`, `false`, `0`) are folded into "missing".
- `CartStore.Store.Increment` requires the line to exist, because its only caller is a rendered cart line (App.tsx:255). Without a line, the source would lower stock without reserving a unit.
- `CartStore.Store.AddToCart` requires `p` to be one of the current products, because it is called with a product as rendered (App.tsx:194). With one atomic step per handler, that is the current value.
