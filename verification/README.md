# eshopper storefront core in Dafny

A model of the business logic of the eshopper Django storefront. The HTTP, session and ORM plumbing is not modelled. Every rule is stated over immutable values.

- **Session cart** (`cart.dfy`, module `Carts`). `add_to_cart` and `remove_from_cart` operate on the session's `Cart` dictionary.
  - The lines live in an insertion-ordered dictionary keyed by `"{title}_{id}"`. A Python dict keeps insertion order, so the model uses a sequence of key/line entries with distinct keys.
  - Add inserts one unit or increments the existing line. Remove decrements the line and deletes it once its quantity is 0 or less.
  - Both operations then recompute every `Product_Total`, the cart `Quantity` and the `Cart_Total` from scratch.
  - The properties are stated and proved per call, and for any sequence of adds and removes.
- **Sign-up validation** (`validation.dfy`, module `Validation`). `validateCustomer` is a chain of nine checks in which the first failure wins.
  - It is modelled as one function whose contract gives the exact condition for each of the nine messages.
  - It is also proved equal to an independent "first failing rule" evaluator applied to the ordered rule list.
- **Checkout** (`checkout.dfy`, module `Checkout`). This is the POST branch of the `order` view.
  - The empty-cart guard and owner resolution decide whether an order is created.
  - The loop over the cart lines skips products missing from the table. Every kept line creates an order item at the cart's quantity and price and raises the product's `amount_sold`.
  - The loop also builds the confirmation summary and its total.
  - The session cart is deleted once the confirmation mail is delivered. When sending fails, the order, its items and the sales counters are already written and the cart stays in the session.
  - The model also covers the `Sum` shown by `orders_details`.
- **Model records and lookups** (`models.dfy`, module `Models`).
  - `Category`, `Customer`, `Product`, `Order` and `OrderItem` as datatypes, with their field defaults and `__str__` formats.
  - `search`, `get_all_products_by_category_id`, `get_customer_by_email`, `isExists` and `get_all_category_by_name`. Each is a filter over an in-memory table in storage order.
- **String helpers** (`text.dfy`, module `Text`).
  - Python's `str` of an integer.
  - `rfind`.
  - The image file-name extraction `full_path[full_path.rfind('/')+1:]`.
  - ASCII case folding and substring containment, which model Django's `icontains`.
- **`Option`** (`wrappers.dfy`, module `Wrappers`).

`Product.search('')` matches every product, because the empty string is a substring of every title (`Models.EmptyQueryMatchesAll`). The view `q` keeps the empty term away from the search by redirecting home when the term is falsy (eshopper/store/views.py:78-91).

## Model

| member | source | states |
|---|---|---|
| Text.RFind | eshopper/store/views.py:24 | Returns -1 or an index holding the character, and no later index holds it: the last occurrence, as `str.rfind` gives. |
| Text.ImageName | eshopper/store/views.py:23-25 | The image name has no '/' and is a suffix of the path. The character just before it is '/' when it is shorter than the path, and it is the whole path when the path holds no '/'. |
| Text.ParseNatToString | eshopper/store/views.py:279 | The decimal rendering of a product id reads back as the same id. |
| Text.NatToStringInjective | eshopper/store/views.py:279 | Two different ids never render to the same decimal text. |
| Text.ParseIntToString | eshopper/store/models.py:103 | An order item's quantity rendered by `str` (with a '-' for negatives) reads back as the same integer. |
| Text.ContainsIffOccurs | eshopper/store/models.py:58 | The containment test holds exactly when the query occurs at some position of the text. |
| Text.ContainsIgnoringCaseIffOccurs | eshopper/store/models.py:58 | `icontains` holds exactly when the lower-cased query occurs in the lower-cased text. |
| Models.FilterSingleton | eshopper/store/models.py:34 | A filter returns exactly one row iff exactly one index matches, and that row is the one at the matching index; this is the success condition of `objects.get`. |
| Models.CategoriesByName | eshopper/store/models.py:14-15 | A category is returned iff it is stored and its name equals the argument exactly, with case counting. |
| Models.CustomerByEmail | eshopper/store/models.py:31-36 | A customer is returned iff exactly one stored row has the email, and then it is that row. A miss and a duplicate both give the `False` result. |
| Models.IsExists | eshopper/store/models.py:38-42 | True iff at least one stored customer has the email. |
| Models.LookupAgreesWithExists | eshopper/store/models.py:31-42 | A successful lookup implies the email exists. An email that exists but fails to look up is held by two distinct rows. |
| Models.CustomerStr | eshopper/store/models.py:44-45 | The display string is the first name, one space, then the last name, at the stated positions. |
| Models.CustomerStrReadsBack | eshopper/store/models.py:44-45 | When the first name has no space, splitting the display string at its first space gives back both names. |
| Models.CreateProduct | eshopper/store/models.py:50-53 | Omitted fields take the defaults price 0, `amount_sold` 0 and category 1, given fields are stored as given, and the description is empty. |
| Models.Search | eshopper/store/models.py:56-58 | A product is returned iff it is stored and the query is a case-insensitive substring of its title or of its category's name. |
| Models.SearchMatchIsFoldedOccurrence | eshopper/store/models.py:58 | The search condition holds iff the lower-cased query occurs in the lower-cased title or in the lower-cased category name. |
| Models.SearchIgnoresCase | eshopper/store/models.py:58 | Two queries that lower-case alike return the same products in the same order. |
| Models.EmptyQueryMatchesAll | eshopper/store/models.py:56-58 | The empty query returns every product, in storage order. |
| Models.ProductsByCategory | eshopper/store/models.py:68-73 | An absent id or 0 returns every product unchanged. Any other id returns exactly the products in that category. |
| Models.CreateOrder | eshopper/store/models.py:86-89 | An omitted address or phone is '', an omitted status is False, and given fields are stored as given. |
| Models.OrderStr | eshopper/store/models.py:91-92 | The order's display string is all digits and reads back as the order id. |
| Models.CreateOrderItem | eshopper/store/models.py:99-100 | An omitted quantity is 1, a given quantity is stored, and the price is the one supplied. |
| Models.OrderItemStr | eshopper/store/models.py:102-103 | The display string is the quantity's decimal text, which reads back as the quantity, then " x ", then the product title. |
| Models.OrderItemStrRoundTrip | eshopper/store/models.py:102-103 | "{quantity} x {title}" parses back into the same quantity and product title. |
| Carts.ProductKey | eshopper/store/views.py:279 | The key is the title, then '_', then at least one decimal digit and nothing else. |
| Carts.ProductKeySplit | eshopper/store/views.py:279 | The last '_' of a cart key sits right after the title, so the title and the decimal id can be recovered from the key. |
| Carts.ProductKeyInjective | eshopper/store/views.py:279 | Two (title, id) pairs share a cart key only if they are the same pair. |
| Carts.IndexOf | eshopper/store/views.py:281 | Returns the first position holding the key, or none when no position holds it: the dictionary membership test. |
| Carts.Refresh | eshopper/store/views.py:295-298 | Every line keeps its key and all fields except `Product_Total`, which becomes quantity times price, so every line total agrees afterwards. The sums and keys it preserves are stated by `Carts.RefreshSums` and `Carts.RefreshKeys`. |
| Carts.Recount | eshopper/store/views.py:292-303 | After the recount, each line total is quantity times price, `Quantity` is the sum of the line quantities, and `Cart_Total` is the sum of the line totals. The cart id is kept. |
| Carts.CartTotalIsAmount | eshopper/store/views.py:298-303 | In a cart whose totals agree, `Cart_Total` is the sum of price times quantity over the lines. |
| Carts.RecountConsistent | eshopper/store/views.py:338-355 | Recounting a cart whose totals already agree returns the same cart. |
| Carts.AddToCart | eshopper/store/views.py:271-303 | After an add the totals agree with the lines and the cart id is kept. |
| Carts.RemoveFromCart | eshopper/store/views.py:316-355 | After a remove the totals agree with the lines and the cart id is kept. |
| Carts.AddInsertsOrIncrements | eshopper/store/views.py:279-290 | A fresh key gets a line holding 1 unit at the given title, id, price and image. A present key's quantity rises by exactly 1. The key set gains only that key. |
| Carts.OtherKeysUntouched | eshopper/store/views.py:279-336 | Neither add nor remove changes a line stored under another key, except for recomputing its total. |
| Carts.RemoveDecrementsOrDeletes | eshopper/store/views.py:328-336 | Removing a present key lowers its quantity by 1. At 0 or below the line and its key are gone; otherwise the key set is unchanged. |
| Carts.RemoveAbsentKeepsLines | eshopper/store/views.py:330-355 | Removing an absent key keeps the key set and every line, and only recomputes totals. On a cart whose totals agree, it changes nothing. |
| Carts.AddPreservesWellFormed | eshopper/store/views.py:279-303 | An add keeps keys distinct, every quantity at least 1, and the totals in agreement. |
| Carts.RemovePreservesWellFormed | eshopper/store/views.py:328-355 | A remove keeps keys distinct, every remaining quantity at least 1, and the totals in agreement. |
| Carts.AddCountsOneMore | eshopper/store/views.py:279-303 | An add raises `Quantity` by 1 and `Cart_Total` by the unit price of the line it touched. |
| Carts.RemoveCountsOneLess | eshopper/store/views.py:328-355 | Removing a present key lowers `Quantity` by 1 and `Cart_Total` by that line's unit price. Removing an absent key changes neither total. |
| Carts.AddThenRemove | eshopper/store/views.py:279-355 | On a well-formed cart, an add followed by a remove of the same product gives back exactly the original cart, whether or not the key was present. |
| Carts.ReplayPreservesWellFormed | eshopper/store/views.py:267-362 | Any sequence of adds and removes keeps a well-formed cart well-formed. |
| Carts.SessionCartsWellFormed | eshopper/store/views.py:271-277 | Every cart built from an empty session by adds and removes is well-formed. |
| Validation.ValidateCustomer | eshopper/store/views.py:232-256 | The result is None iff every check passes. Each of the nine messages is returned iff its check fails and every earlier check passes. |
| Validation.FirstFailure | eshopper/store/views.py:236-256 | Returns None iff no rule fails; otherwise the message of a failing rule that has no failing rule before it. |
| Validation.ValidateIsFirstFailure | eshopper/store/views.py:236-256 | `validateCustomer` equals first-failure-wins over the nine checks in source order. |
| Checkout.Materialize | eshopper/store/views.py:420-442 | The loop keeps the product table's key set, and yields no more items than cart lines, one summary line per item. Every item belongs to the new order and names a product in the table. |
| Checkout.MaterializeItems | eshopper/store/views.py:420-438 | The loop creates one order item and one summary line for each cart line whose product exists, in cart order, at the cart's quantity and price. |
| Checkout.MaterializeTotal | eshopper/store/views.py:439 | The confirmation total is the sum of price times quantity over the kept lines. |
| Checkout.MaterializeCatalog | eshopper/store/views.py:429-431 | Every product's `amount_sold` rises by exactly the units the cart buys of it, and no other product field changes. |
| Checkout.MaterializeSpec | eshopper/store/views.py:420-442 | Combines the three loop facts: the items, the summary, the total and the sales counters. |
| Checkout.Owner | eshopper/store/views.py:374-406 | With a session id, the owner is the stored customer of that id, and there is none when the id is missing from the table. Without a session id, the owner is the guest record, or none when creating it failed. |
| Checkout.PlaceOrder | eshopper/store/views.py:364-467 | Nothing is created iff the cart is empty or the owner cannot be resolved. Otherwise the order gets the owner, the session address and phone (or '') and status False. The items, the sales counters, the mailed line items (title, quantity and price per kept line, in cart order) and the confirmation total follow the kept lines. The session cart is deleted iff the mail is delivered; when sending fails, the cart stays. |
| Checkout.ItemsMatchSales | eshopper/store/views.py:423-431 | A product's `amount_sold` gain equals the units of that product in the cart. |
| Checkout.OrderWithoutContactIsDefault | eshopper/store/views.py:409-413 | An order placed from a session without address or phone equals an order created with every optional field left out. |
| Checkout.MailFailureKeepsWrites | eshopper/store/views.py:409-467 | Whether the mail is delivered or sending fails, the same order, items, sales counters and confirmation are written. Only the session cart differs: it is deleted after delivery and kept after a failure. |
| Checkout.SingleUnitItemIsDefault | eshopper/store/views.py:423-428 | A cart line's order item equals a bare create with no quantity iff the line holds one unit. |
| Checkout.DefaultProductCountsSales | eshopper/store/views.py:429-431 | A product created with the default sales counter counts, after checkout, exactly the units bought. |
| Checkout.DetailSumAsWritten | eshopper/store/views.py:523-525 | The detail `Sum` as written adds up unit prices only. It is non-negative for non-negative prices and 0 when every price is 0. Its relation to the true total is stated by `Checkout.DetailSumAsWrittenFallsShort`. |
| Checkout.DetailSumMatchesConfirmation | eshopper/store/views.py:523-525 | The corrected detail sum, price times quantity over the items, equals the total the confirmation announced. |
| Checkout.DetailSumAsWrittenAgreesOnSingleUnits | eshopper/store/views.py:523-525 | The detail sum as written equals the corrected one when every item has quantity 1. |
| Checkout.DetailSumAsWrittenFallsShort | eshopper/store/views.py:523-525 | With non-negative prices and at least one unit per item, the detail sum as written never exceeds the true total. It falls strictly short once a priced item is bought more than once. |
| Checkout.DetailSumAsWrittenUndercounts | eshopper/store/views.py:523-525 | For two chairs at 50, the confirmation says 100 but the detail sum as written shows 50. |
| Checkout.ChairAndTableScenario | eshopper/store/views.py:420-442 | Two chairs at 50 and a table at 200 give two items, sales counters up by 2 and 1, and a total of 300. |
| Checkout.MissingProductSkipped | eshopper/store/views.py:440-442 | A cart line whose product was deleted is skipped, and the order is placed with the remaining line only. |

## Left out

- The views `home`, `q`, `product`, `collections`, `cart`, `ordered`, `orders`, `login`, `logout` and `signup` are left out. Besides rendering templates and filling the session, `login` looks a customer up by email and checks the password hash, and `signup` hashes the password and saves the new customer. Those are persistence and cryptography (see below). The search, image-name, lookup and validation logic they call is modelled.
- Password hashing (`make_password`, `check_password`) is a foreign cryptographic call. The validator sees the typed password.
- `send_mail`, `render_to_string` and `strip_tags` are I/O. The confirmation is modelled as the data it is built from: the customer name, recipient, summary lines and total. Whether sending succeeds is a parameter of `Checkout.PlaceOrder`.
- The random `Cart_ID` assigned by `home` is nondeterministic. The cart id is an opaque optional value that adds and removes preserve.
- Float parsing of the URL price and `round(total, 2)` are left out because prices are integers (`IntegerField`). `price_cut` in `home` is left out too.
- The `order_by` queries of `home` and `orders` are left out. Their tie order is database-defined.
- The guest-email lookups of `orders` and `orders_details` are left out. The guest `get_or_create` of checkout is a parameter: the record it found or created, or none when it raised.
- The order's creation date comes from the clock and is not part of the `Order` record. The new order's id is a parameter.
- `get_products_by_id`, `get_all_products` and `get_all_categories` are left out. Each is an unfiltered or id-filtered read with nothing to state beyond `Models.Filter`.
- `Category.__str__` and `Product.__str__` are left out. Each returns one field unchanged.
- eshopper/store/urls.py holds route declarations only. Its `<int:id>` converter is why product ids are natural numbers.
- Carts.AddToCart: the only session cart without a `Cart_Total` key is the empty cart the home page creates (eshopper/store/views.py:46-53). It is represented with total 0, and the first add or remove writes the recomputed total.
- Validation.ValidateCustomer: form fields are modelled as strings. A missing first name, last name or phone arrives as None; `not None` catches it exactly as it catches '', so the source gives the same message the model gives for ''. A missing password or email reaches `len(None)` and raises. That exception is not modelled.
- Models.Search: case folding is ASCII-only. A product whose category row is missing can match on its title only.
- Checkout.PlaceOrder: the session's address and phone are strings or absent. `login` copies the customer's nullable address into the session, and a stored null becomes an 'Address' of None. The source then passes None to the non-null `Order.address`, and `Order.objects.create` fails. This failure is not modelled: a None address is read as absent and the order is placed with address ''.
- Persistence, transactions and concurrent sessions are left out. Each operation is a function from the old state to the new one.

## Findings

| source | as written | input that shows it | evidently intended | confidence | as-written member | corrected member |
|---|---|---|---|---|---|---|
| eshopper/store/views.py:523-525 | The order detail `Sum` adds `x.price` for each item and ignores the item's quantity. | One item with quantity 2 at price 50: the confirmation total is 100, but the detail page shows 50. | The sum of price times quantity, matching the total the confirmation email announced. | not executed | Checkout.DetailSumAsWrittenUndercounts | Checkout.DetailSumMatchesConfirmation |
