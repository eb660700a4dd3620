# Storefront cart, checkout and accounts — a Dafny model

This project models the in-memory state of a small cash-on-delivery storefront
written as a React application. Five of the `App` component's state fields hold
the store's data: the product catalogue, the shopping cart, the order history,
the list of dashboard accounts and the signed-in user. The other state fields are
UI state and are left out below: the current view, the assistant's open flag, the
chat messages and the chat input. The handlers give the four list fields new lists
computed by `find`, `map`, `filter`, spread and `reduce`. They set the signed-in
user to an account or to nobody.

The model has two layers.

- Pure functions over sequences compute the new lists, and lemmas about them
  state what the source promises:
  - `Lists`: filtering by id, which is used for cart lines, products and team members.
  - `Cart`: adding, removing and totalling cart lines.
  - `Accounts`: the login lookup and the built-in account.
- The class `Storefront.Store` holds the five fields. Each handler is a method
  that modifies only the field its setter replaces. The method's contract ties
  the new value to the functions above and keeps the invariant `Valid()`:
  - the cart has one line per product, each with quantity at least 1;
  - each catalogue entry and each cart line carries the price recorded for its
    product id in a ghost map. Product ids are never reused, so this map never
    changes a price;
  - every order is pending, its lines form such a cart, and its total is the
    sum of price times quantity;
  - the built-in account is never removed;
  - a signed-in user always has a password.

Prices and quantities are mathematical integers, because every price in the
store is an integer literal or comes from `parseInt`. Order ids, product ids
and order timestamps come from `Math.random`, `Date.now()` and `new Date()` in
the source. Here they are parameters of the methods.

Files:
- `types.dfy`: the records of `types.ts`. It also holds two types of the model's
  own: `Customer`, the inline parameter type of `handleCheckout` (App.tsx:84), and
  `Option`, a helper that stands for an optional value or null.
- `lists.dfy`: removal by id.
- `cart.dfy`: the cart functions and their lemmas.
- `accounts.dfy`: login and the built-in account.
- `store.dfy`: the `Store` class, the initial catalogue and a worked example.

## Model

| member | source | states |
|---|---|---|
| `Lists.Without` | App.tsx:81 | filtering by id keeps exactly the elements whose id differs, and never makes the list longer |
| `Lists.WithoutAppend` | App.tsx:81 | filtering distributes over concatenation, so the surviving elements keep their original relative order |
| `Lists.WithoutAbsent` | App.tsx:81 | filtering out an id that no element has returns the list unchanged |
| `Lists.WithoutUnique` | App.tsx:81 | in a list with distinct ids, filtering out a present id removes exactly the one element at its position |
| `Lists.WithoutKeepsDistinct` | App.tsx:81 | filtering keeps ids distinct |
| `Cart.AddLine` | App.tsx:72-75 | the cart after adding a product: one line longer exactly when the product had no line, and holding the product afterwards (line by line: `Cart.AddExisting`, `Cart.AddNew`) |
| `Cart.RemoveLines` | App.tsx:81 | the cart after removing an id: exactly the lines for other products, and no line for the id |
| `Cart.FindLine` | App.tsx:73 | the lookup finds a line exactly when some line has the product id; the line found has that id, and no earlier line does |
| `Cart.Bump` | App.tsx:74 | the add-to-existing `map` keeps the length, adds one to the quantity of every line for the id, and leaves every other line equal |
| `Cart.CartTotal` | App.tsx:82 | the left-fold `reduce` from 0 equals the sum of price × quantity over the lines; an empty cart totals 0 |
| `Cart.Fold` | App.tsx:82 | the `reduce` callback folded from any accumulator gives that accumulator plus the independently defined sum of price × quantity |
| `Cart.SumAppend` | App.tsx:82 | the total of two concatenated carts is the sum of their totals |
| `Cart.AddExisting` | App.tsx:73-74 | adding a product that has line k: same length, line k gains one unit, every other line and the order are unchanged |
| `Cart.AddNew` | App.tsx:75 | adding a product with no line appends one line at the end: quantity 1, the product's price and name |
| `Cart.AddKeepsWellFormed` | App.tsx:71-76 | adding keeps product ids distinct and every quantity ≥ 1, and the product is then in the cart |
| `Cart.RemoveKeepsWellFormed` | App.tsx:81 | removing keeps the cart well formed and leaves no line for the removed id |
| `Cart.RemoveAbsent` | App.tsx:81 | removing an id with no line leaves the cart unchanged |
| `Cart.RemovePresent` | App.tsx:81-82 | removing the product of line k drops exactly that line, keeps the rest in order, and lowers the total by that line's price × quantity |
| `Cart.AddTotal` | App.tsx:73-75 | adding raises the total by one unit: by the existing line's snapshot price, or by the product's price for a new line |
| `Cart.AddTotalCurrentPrice` | App.tsx:74-75 | when the cart's line for the product carries its current price, adding raises the total by exactly product.price |
| `Cart.AddKeepsPriced` | App.tsx:73-75 | adding a product at its recorded price keeps every line at the price recorded for its product id |
| `Cart.RemoveKeepsPriced` | App.tsx:81 | removing lines keeps every remaining line at its recorded price |
| `Cart.RemoveUndoesAdd` | App.tsx:75-81 | removing a product just added to a cart that lacked it gives back the original cart |
| `Accounts.Matches` | App.tsx:52 | an account matches when its username equals the submitted one and it has a password equal to the submitted one |
| `Accounts.FirstMatch` | App.tsx:52 | the lookup succeeds exactly when some account's username and password both match; it returns the first such account, and that account has a password, so an account without one never matches |
| `Accounts.InitialAdmins` | App.tsx:34-36 | the store starts with one account: id "1", username "admin", password "123", role admin |
| `Accounts.CanManageTeam` | App.tsx:308 | the team tab is offered only when the signed-in user has the admin role |
| `Accounts.RootCanSignIn` | App.tsx:34-36 | while the built-in account is on the list, its credentials sign in |
| `Storefront.InitialProducts` | App.tsx:29-32 | the store starts with two products: id "1" at 15000 and id "2" at 8500 |
| `Storefront.ImageOrDefault` | App.tsx:276 | an empty image field is replaced by a non-empty default address; a given image is kept |
| `Storefront.TwoLineCartTotal` | App.tsx:71-82 | two 8500 headphones and one 4200 item give two lines (quantities 2 and 1) and a total of 21200 |
| `Storefront.FreshProductSession` | App.tsx:269-290 | on a new store, the built-in admin signs in and adds a 4200 product; the product goes in the cart; deleting the built-in account is refused; checkout then gives a pending order of that one line totalling 4200 |
| `Storefront.Store.constructor` | App.tsx:29-44 | the store starts with the two initial products, the built-in account, an empty cart, no orders and nobody signed in; only ids "1" and "2" have a recorded price, so any other product id is free |
| `Storefront.Store.Login` | App.tsx:49-59 | succeeds iff some account matches; on success the first match becomes the current user; on failure the current user is unchanged |
| `Storefront.Store.Logout` | App.tsx:61-64 | the current user becomes empty |
| `Storefront.Store.AddToCart` | App.tsx:71-79 | for a product of the catalogue: the cart becomes the add-line result, holds the product, stays well formed, and its total rises by exactly the product's price |
| `Storefront.Store.RemoveFromCart` | App.tsx:81 | the cart becomes the filtered cart, holds no line for the id, and is unchanged when the id was absent |
| `Storefront.Store.Checkout` | App.tsx:84-99 | the new order's lines equal the old cart, its total is their sum, and its status is pending; it is put first in the history with the older orders after it in order; the cart is then empty |
| `Storefront.Store.AddProduct` | App.tsx:269-290 | the new product, with the image default applied, is appended to the catalogue, and its price is recorded under its id |
| `Storefront.Store.DeleteProduct` | App.tsx:292-296 | the catalogue keeps exactly the products whose id differs, in order |
| `Storefront.Store.DeleteTeamMember` | App.tsx:396 | deletes only when the signed-in user is an admin (the dashboard needs a signed-in user, App.tsx:204, and only admins see the team tab, App.tsx:308) and the id is not the built-in account's; the list then keeps exactly the members with other ids, and the built-in account survives; an id no member has leaves the list as it is |

Three handlers, `removeFromCart`, `handleCheckout` and `handleAddProduct`, have no
call site in App.tsx as it stands. No cart or checkout view is rendered, and the
"adding product" flag is set at App.tsx:352 but no form is shown. They are modelled
anyway because each is a complete handler whose effect on the state is fully
written out (App.tsx:81, App.tsx:84-99, App.tsx:269-290). Adding team members is
different: no handler for it exists at all.

## Left out

- Rendering, styling, view switching (`setView`), the `alert` and `confirm` dialogs, `navigator.vibrate` and `navigator.share`: these are UI and browser calls. `DeleteProduct` models the branch where the user confirmed.
- The shopping assistant chat (`handleChatSubmit`) and `geminiService.ts`: asynchronous calls to a remote text service. geminiService.ts is not part of this model.
- Random order ids, `Date.now()` product ids and `new Date()` timestamps: these are method parameters. Order ids and timestamps are unconstrained. Product ids are assumed fresh (see the `Storefront.Store.AddProduct` line below).
- Reading the login and product forms (`FormData`, `parseInt`): already-parsed values are passed in. A price that `parseInt` turns into `NaN` is not modelled.
- JavaScript numbers are doubles. The model uses unbounded integers, so precision loss above 2^53 is not modelled.
- Adding team members: the dashboard sets an "adding member" flag but never renders a form, so no such operation exists. The pencil button next to a product has no handler, so products are never edited.
- Order status changes: the status is only ever set to pending.
- Landing pages, affiliate commissions, affiliate balances and role-scoped order listing do not exist in App.tsx or types.ts: the records have no referral, commission or balance fields, and the orders tab lists every order (App.tsx:328).
- Storefront.Store.AddProduct: requires the new product id to be one never used before. The source takes it from `Date.now()` and does not check it; the model does not capture two products created in the same millisecond. This freshness is what lets `Storefront.Store.AddToCart` promise a rise of exactly the product's price, because every cart line then carries the current catalogue price of its product.
