# Storefront core in Dafny

A model of the business logic of a small Django shop (`e_commerce/shop`):
the cart held in a cookie and its correction against the stock, the sale
that drains the stock batches, the catalogue filters (price window,
brands, categories), the cart-line and like actions, the product rating,
the admin hook that books an income into the stock, the buyer filter of
the admin user list, and two template filters.

Database rows become immutable values (`Models`): a product, a stock
batch, an order and its lines, a review and its likes, an income. A
database query becomes a function of the rows it reads, and a write
becomes part of the returned value. Prices are `DecimalField`s with two
decimal places; they are held as whole hundredths (`Cents`). Python
exceptions become the `Failure` side of `Outcomes.Result`:

| `ShopError` | raised in the code as |
|---|---|
| `IndexOutOfRange` | `q[i]` past the cached stock rows |
| `NotANumber` | `int(...)` of a price bound that is not a number |
| `MissingRelation` | an attribute read through a foreign key that is NULL |
| `DoesNotExist` / `MultipleObjectsReturned` | `get` / `get_or_create` |

Modules follow the source:

- `Models` (models.dfy) holds the records, the defaults, the review
  marks, the order sums and the upload path.
- `StockDrain` models `decreasing_stock_items`.
- `Cart` models the stock check, the cookie cart, the cart correction and
  the cart count.
- `Catalogue` models the price and brand form and the category and brand
  lists.
- `Actions` models cart-line actions, likes, the rating and the checkout
  message.
- `Admin` models `IncomeAdmin.save_model` and `BuyerListFilter`.
- `ShopTags` models `hide_brackets` and `get_range`.
- `Seqs` holds generic sequence facts: sublists and filtering.

## Model

| member | source | states |
|---|---|---|
| Models.MarksAreOneToFive | e_commerce/shop/models.py:187-193 | a grade is one of the review marks exactly when it lies between 1 and 5 |
| Models.ItemTotal | e_commerce/shop/models.py:335-339 | a line's total is 0 for no units, never negative for non-negative price and quantity, and at least the unit price for one unit or more |
| Models.OrderSumsAppend | e_commerce/shop/models.py:299-311 | the order total and the order item count are additive over concatenated line lists |
| Models.NewOrderItemAddsNothing | e_commerce/shop/models.py:325 | a line created with the default quantity changes neither the order total nor the item count |
| Models.OrderSumsSnoc | e_commerce/shop/models.py:299-311 | both order sums, accumulated from the front as Python's `sum` does, add the last line last: the total grows by its line total and the count by its quantity |
| Models.OrderTotalBounds | e_commerce/shop/models.py:299-311 | with non-negative lines both order sums are non-negative, and with every price at least one hundredth the total is at least the item count |
| Models.PriceTotal | e_commerce/shop/models.py:389-392 | a batch's value is 0 when it is empty and never negative for non-negative price and quantity |
| Models.UserDirectoryPath | e_commerce/shop/models.py:12-19 | the path reads back as the lower-cased class name, `_`, the slug of the name (the product's name for a product image, the object's own name otherwise), `/` and the file name; when the slug holds no `/`, the part after the first `/` is exactly the file name |
| StockDrain.Drain | e_commerce/shop/utils.py:150-165 | the remaining batches are a suffix of the original ones, except that the first may be a positive remainder of its batch; failure is only the index error of running past the last batch |
| StockDrain.DrainBatches | e_commerce/shop/utils.py:150-165 | the imperative loop with its index computes the same outcome as the reference drain |
| StockDrain.DrainTotal | e_commerce/shop/utils.py:147-165 | with non-negative batches draining succeeds exactly when the request is at most the stock, the stock then falls by exactly the request, and no batch goes negative |
| StockDrain.AllEmptyIffZero | e_commerce/shop/utils.py:166 | non-negative batches are all empty exactly when their total is zero |
| StockDrain.DrainEmptiesIffAllRequested | e_commerce/shop/utils.py:147-168 | a request within the stock empties every batch exactly when it asks for the whole stock |
| StockDrain.SellItem | e_commerce/shop/utils.py:146-168 | selling one line touches only that line's product, only ever sets sold flags, and flags the product exactly when it was flagged or none of its stock remains |
| StockDrain.SellItemLaw | e_commerce/shop/utils.py:146-168 | selling `n` units fails exactly when the product has batches whose total is below `n`; otherwise, when it has batches, their total falls by `n`, and the product ends up sold exactly when it was sold already, had no batches, or `n` was its whole stock |
| StockDrain.DecreasingStockItems | e_commerce/shop/utils.py:141-168 | products no sold line mentions keep their batches and their flag, and no flag is ever cleared |
| StockDrain.SellItemLocal | e_commerce/shop/utils.py:146-168 | selling a line reads and writes only its own product: stores that agree on it succeed alike and still agree on it afterwards |
| StockDrain.DecreasingStockItemsLaw | e_commerce/shop/utils.py:141-168 | with one line per product the sale succeeds exactly when every line can be sold on its own, and each line's product then ends with the batches and sold flag that selling that line alone gives it |
| StockDrain.DecreasingKeepsNonNegative | e_commerce/shop/utils.py:141-168 | a successful sale keeps every stored batch quantity non-negative |
| Cart.CheckQuantityInStock | e_commerce/shop/utils.py:112-138 | each line asking for more than its product's summed stock, or for nothing, is set to that stock and the rest are kept; the warning is raised exactly when some line had to be set |
| Cart.CheckCapsToStock | e_commerce/shop/utils.py:124-131 | after the check no line asks for more than its product's stock |
| Cart.CheckTwice | e_commerce/shop/utils.py:112-138 | a second check changes no line, and it warns again exactly when some product has no stock at all |
| Cart.CreateCookieCart | e_commerce/shop/utils.py:300-308 | the cart has a key exactly for the products with a non-zero line, each mapped to the quantity of the last such line, and holds no zero |
| Cart.CookieCartOfDistinct | e_commerce/shop/utils.py:300-308 | with one line per product each non-zero line's quantity is what the cart holds |
| Cart.CorrectCartOrder | e_commerce/shop/utils.py:237-253 | the corrected cart is the cookie cart of the lines, the item count and the total are the order sums of the lines, and every non-zero line gets quantity times price as its total |
| Cart.GetCartItemQuantity | e_commerce/shop/utils.py:290-297 | the number of units in a cart with non-negative quantities is non-negative |
| Cart.CartCountMatchesOrder | e_commerce/shop/utils.py:290-308 | with one line per product, counting the cookie cart gives the order's item count |
| Cart.CorrectedCartCount | e_commerce/shop/utils.py:237-253 | with one line per product, the count of the corrected cart equals the corrected item count |
| Cart.CheckedCartWithinStock | e_commerce/shop/utils.py:112-138 | a cart checked against the stock and then corrected never holds more of a product than the stock does |
| Cart.CookieCartWithinStock | e_commerce/shop/utils.py:300-308 | lines within their stock give a cookie cart within the stock |
| Catalogue.BrandFilter | e_commerce/shop/utils.py:269-274 | the brand filter fails exactly when some product has no brand; otherwise it keeps, in order, exactly the products of a selected brand |
| Catalogue.HandlingBrandPriceForm | e_commerce/shop/utils.py:256-275 | an empty form keeps the list; a malformed bound fails; with well-formed bounds the call fails exactly when brands are chosen and some product inside the price window has no brand, and otherwise returns the sublist of exactly the products inside the window and, when brands are chosen, of a chosen brand |
| Catalogue.FormFilterIdempotent | e_commerce/shop/utils.py:256-275 | applying the same form to its own result changes nothing |
| Catalogue.DefineCategoryWithSuperCategory | e_commerce/shop/utils.py:423-433 | the result is the sublist of exactly the categories under the given super-category, and empty for no super-category |
| Catalogue.SuperCategoryOfSlug | e_commerce/shop/utils.py:441-445 | no super-category exactly when no category has the slug, otherwise that of the first category with it |
| Catalogue.DefineCategoryList | e_commerce/shop/utils.py:436-446 | an unknown slug gives the empty list; otherwise the list is the sublist of exactly the categories sharing the super-category of the first category with the slug |
| Catalogue.DefineBrandList | e_commerce/shop/utils.py:449-454 | fails exactly when a product has no brand; otherwise every product's brand appears as a (name, name) choice, every choice comes from some product, and there are at most as many choices as products |
| Catalogue.ChoicesBound | e_commerce/shop/utils.py:454 | the set of brand choices is never larger than the product list |
| Actions.SetLine | e_commerce/shop/utils.py:525-536 | after setting quantity `q`, the order has one line for the product with quantity `q` when `q` is positive and none otherwise, the other products' lines are unchanged, and lines that were all positive stay positive |
| Actions.PerformOrderItemAction | e_commerce/shop/utils.py:519-536 | a missing product fails, a sold product changes nothing, two lines for the product fail, and otherwise the open (or new) order's line moves by the action and is dropped once its quantity is not positive, while other lines are kept |
| Actions.PerformKeepsLinesPositive | e_commerce/shop/utils.py:519-536 | an order whose lines are all positive keeps them positive |
| Actions.SetLineRestore | e_commerce/shop/utils.py:525-536 | raising a line by one and setting it back restores the order's lines exactly |
| Actions.AddThenRemove | e_commerce/shop/utils.py:519-536 | "add" followed by "remove" on an unsold product leaves the open order as it was |
| Actions.NewProductIgnoresActions | e_commerce/shop/models.py:128 | a product as created, flagged sold by default, ignores every cart action |
| Actions.NullableIncrement | e_commerce/shop/utils.py:497-500 | a NULL or zero counter is incremented to 1 and any other counter by one |
| Actions.ModifyLikeWithResponse | e_commerce/shop/utils.py:486-503 | an author's first like or dislike of a review is recorded and raises the chosen counter by one (a NULL counter counting as zero), leaving the other counter alone; any later one is refused and changes nothing |
| Actions.LikeKeepsInvariants | e_commerce/shop/utils.py:486-503 | one record per author and review, and counters equal to the number of like and dislike records, are both kept |
| Actions.LikeTwiceIsRefused | e_commerce/shop/utils.py:486-503 | repeating a like request is refused |
| Actions.NatText | e_commerce/shop/utils.py:479 | the printed number is a non-empty string of decimal digits without a leading zero |
| Actions.NatTextRoundTrip | e_commerce/shop/utils.py:479 | reading the printed digits back gives the number |
| Actions.CeilDiv | e_commerce/shop/utils.py:479 | the result is the least integer at least the exact quotient |
| Actions.DefineProductEval | e_commerce/shop/utils.py:471-483 | no reviews gives the integer 0; otherwise the text of the least integer at least twice the mean grade |
| Actions.GradeSumBounds | e_commerce/shop/utils.py:475-477 | grades that are review marks sum to between the review count and five times it |
| Actions.ProductEvalRange | e_commerce/shop/utils.py:471-483 | with review marks as grades the rating is one of "2" to "10" |
| Actions.GetMessageAndWarning | e_commerce/shop/utils.py:597-604 | with some line bought the result is "Оплата пройшла успішно" and the smile ":)"; with none it is the empty message and no warning |
| Admin.SaveIncome | e_commerce/shop/admin.py:127-150 | a new income creates a batch with its product, quantity, price and supplier and marks the product unsold; an edit that the batch absorbs keeps a positive batch and the units already sold from it; otherwise the batch is deleted and the product marked sold; a new income and a deletion fail exactly when the income has no product, and nothing else fails |
| Admin.CorrectFreshIncome | e_commerce/shop/admin.py:127-150 | correcting a fresh income moves its batch to the corrected quantity, and a correction to zero deletes it and marks the product sold |
| Admin.ResaveKeepsBatch | e_commerce/shop/admin.py:127-150 | saving an income again with the same quantity keeps a batch that holds stock |
| Admin.SoldUnitsSurviveEdits | e_commerce/shop/admin.py:132-140 | along any run of edits that the batch absorbs, the batch stays positive and the units sold from it stay the same |
| Admin.BuyerIds | e_commerce/shop/admin.py:83-84 | a user id is a buyer id exactly when some buyer profile points at it |
| Admin.BuyerListFilter | e_commerce/shop/admin.py:82-88 | "Так" keeps exactly the users with a buyer profile and "Ні" exactly those without, in order; any other choice leaves the list unfiltered |
| Admin.BuyerChoicesPartition | e_commerce/shop/admin.py:82-88 | the two choices split the user list: every user shows up under exactly one of them |
| ShopTags.HideLine | e_commerce/shop/templatetags/shop_tags.py:8-10 | a line without a bracketed span is unchanged; otherwise the text from its first `(` to its last `)` is cut out, and what is left has no span |
| ShopTags.HideBrackets | e_commerce/shop/templatetags/shop_tags.py:8-10 | single-line text is treated as `HideLine` treats it; the text never grows and keeps exactly as many line breaks; text without an opening bracket is unchanged; the per-line behaviour of multi-line text is stated by `HideBracketsStep` and `HideBracketsByLine` |
| ShopTags.HideBracketsStep | e_commerce/shop/templatetags/shop_tags.py:8-10 | a match never crosses a line break: the first line is hidden on its own and the text after the break separately |
| ShopTags.HideBracketsByLine | e_commerce/shop/templatetags/shop_tags.py:8-10 | on lines joined by line breaks the result is the same lines, each with its bracketed span hidden, joined the same way |
| ShopTags.HideBracketsIdempotent | e_commerce/shop/templatetags/shop_tags.py:8-10 | hiding brackets twice is the same as once |
| ShopTags.GetRange | e_commerce/shop/templatetags/shop_tags.py:13-15 | the numbers 0 to n - 1 in order, empty when n is not positive |

## Left out

- Partial writes before an exception: when a loop stops on an error, the
  rows it already wrote are not modelled. The whole call is a `Failure`.
- `F()` expressions are read as the value the row held in memory before
  the save, as if no other request wrote the row in between.
- Integer field widths (small integer fields, `max_digits=10`) are not
  enforced: integers are unbounded.
- Actions.DefineProductEval: uses an exact integer ceiling where the code
  uses `math.ceil` of a float quotient. The two agree for any review
  count the site can hold.
- Models.UserDirectoryPath: `slugify` is a parameter, because it comes
  from the third-party `slugify` package, whose rules are not part of
  this model.
- Images, the product-image pairs of the product list and everything
  rendered by views are not modelled; the brand and price form works on
  products alone.
- `OrderItem.product` is nullable (e_commerce/shop/models.py:313-315), but
  order lines are modelled as always naming a product: the AttributeError
  that `get_total`, `create_cookie_cart` and `decreasing_stock_items` raise
  on a line without one is not modelled.
- Actions.PerformOrderItemAction: a buyer has at most one open order, so
  the `MultipleObjectsReturned` of the order lookup is not modelled.
- Catalogue.DefineBrandList: returns a set, because the list order of a
  Python set is not specified.
- Cart.GetCartItemQuantity: the cookie cart maps a product to its quantity
  directly instead of to a one-entry dictionary. The sum is a ghost
  function, because a map's keys have no order.
- `StockAdmin.summ` (e_commerce/shop/admin.py:114-116) computes the same
  product as `Stock.get_price_total` and is modelled by `Models.PriceTotal`.
- Translations (`_()`), JSON responses and template rendering are left
  out. The messages are kept as plain strings.
