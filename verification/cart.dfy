/** The cart helpers of e_commerce/shop/utils.py: correcting a cart against
    the stock, rebuilding the cookie cart and the order summary from it,
    and counting the cookie cart. */
module Cart {
  import opened Models

  /** The warning shown when a cart line had to be changed. */
  const StockChangedMessage: string :=
    "Нажаль, в одній позиції зі списку виникли зміни." +
    "Поки Ви оформлювали покупку, товар був придбаний" +
    " іншим покупцем." +
    "Приносимо свої вибачення."

  /** The summed stock of one product. */
  function Available(stock: StockTable, p: ProductId): int {
    StockQuantity(BatchesOf(stock, p))
  }

  /** A line must be corrected when it asks for more than the stock holds
      or when it asks for nothing. */
  predicate MustAdjust(line: CartLine, available: int) {
    available < line.quantity || line.quantity == 0
  }

  datatype StockCheck = StockCheck(message: string, items: seq<CartLine>)

  /** `check_quantity_in_stock`: every line that must be adjusted is set to
      its product's summed stock and the warning is raised; every other line
      is kept as it is. */
  function CheckQuantityInStock(items: seq<CartLine>, stock: StockTable): (r: StockCheck)
    ensures |r.items| == |items|
    ensures forall i :: 0 <= i < |items| ==>
              r.items[i] == (if MustAdjust(items[i], Available(stock, items[i].product))
                             then items[i].(quantity := Available(stock, items[i].product))
                             else items[i])
    ensures r.message == "" || r.message == StockChangedMessage
    ensures r.message != "" <==> exists i :: 0 <= i < |items| && MustAdjust(items[i], Available(stock, items[i].product))
    decreases |items|
  {
    if |items| == 0 then StockCheck("", [])
    else
      var prev := CheckQuantityInStock(items[..|items| - 1], stock);
      var line := items[|items| - 1];
      var available := Available(stock, line.product);
      assert forall i :: 0 <= i < |items| - 1 ==> items[..|items| - 1][i] == items[i];
      if MustAdjust(line, available) then
        StockCheck(StockChangedMessage, prev.items + [line.(quantity := available)])
      else
        StockCheck(prev.message, prev.items + [line])
  }

  /** After the check no line asks for more than its product's stock. */
  lemma CheckCapsToStock(items: seq<CartLine>, stock: StockTable)
    ensures var r := CheckQuantityInStock(items, stock);
            forall i :: 0 <= i < |r.items| ==> r.items[i].quantity <= Available(stock, r.items[i].product)
  {
  }

  /** Checking a second time changes no line, and it warns again exactly
      when some line's product has no stock at all. */
  lemma CheckTwice(items: seq<CartLine>, stock: StockTable)
    requires forall i :: 0 <= i < |items| ==> items[i].quantity >= 0
    ensures var r := CheckQuantityInStock(items, stock);
            CheckQuantityInStock(r.items, stock).items == r.items
    ensures var r := CheckQuantityInStock(items, stock);
            CheckQuantityInStock(r.items, stock).message != "" <==>
              exists i :: 0 <= i < |items| && Available(stock, items[i].product) == 0
  {
    var r := CheckQuantityInStock(items, stock);
    var r2 := CheckQuantityInStock(r.items, stock);
    forall i | 0 <= i < |items|
      ensures r2.items[i] == r.items[i]
      ensures MustAdjust(r.items[i], Available(stock, r.items[i].product)) <==> Available(stock, items[i].product) == 0
    {
      AdjustOnce(items[i], Available(stock, items[i].product));
    }
    assert r2.items == r.items;
  }

  /** A corrected line needs correcting again exactly when the stock is empty,
      and correcting it then changes nothing. */
  lemma AdjustOnce(line: CartLine, available: int)
    requires line.quantity >= 0
    ensures var fixed := if MustAdjust(line, available) then line.(quantity := available) else line;
            (MustAdjust(fixed, available) <==> available == 0) &&
            (MustAdjust(fixed, available) ==> fixed.(quantity := available) == fixed)
  {
  }

  // ----------------------------------------------------------- cookie cart

  /** The order lines a list of cart lines stands for. */
  function ItemsOf(lines: seq<CartLine>): (r: seq<OrderItem>)
    ensures |r| == |lines|
    ensures forall i :: 0 <= i < |lines| ==> r[i] == OrderItem(lines[i].product, lines[i].price, lines[i].quantity)
  {
    seq(|lines|, i requires 0 <= i < |lines| => OrderItem(lines[i].product, lines[i].price, lines[i].quantity))
  }

  /** Position `i` holds the last line for `p` whose quantity is non-zero. */
  predicate LastNonZero(items: seq<OrderItem>, p: ProductId, i: int) {
    0 <= i < |items| && items[i].product == p && items[i].quantity != 0 &&
    forall j :: i < j < |items| && items[j].product == p ==> items[j].quantity == 0
  }

  /** `create_cookie_cart`: product id to quantity for every line with a
      non-zero quantity; a later line for the same product wins. */
  function CreateCookieCart(items: seq<OrderItem>): (cart: map<ProductId, int>)
    ensures forall p :: p in cart <==> exists i :: 0 <= i < |items| && items[i].product == p && items[i].quantity != 0
    ensures forall p :: p in cart ==> exists i :: LastNonZero(items, p, i) && cart[p] == items[i].quantity
    ensures forall p :: p in cart ==> cart[p] != 0
    decreases |items|
  {
    if |items| == 0 then map[]
    else
      var prev := CreateCookieCart(items[..|items| - 1]);
      var it := items[|items| - 1];
      CookieExtend(items, prev);
      if it.quantity != 0 then prev[it.product := it.quantity] else prev
  }

  /** The three facts `CreateCookieCart` promises, for `cart` built from `items`. */
  ghost predicate CookieCartOf(items: seq<OrderItem>, cart: map<ProductId, int>) {
    (forall p :: p in cart <==> exists i :: 0 <= i < |items| && items[i].product == p && items[i].quantity != 0) &&
    (forall p :: p in cart ==> exists i :: LastNonZero(items, p, i) && cart[p] == items[i].quantity) &&
    (forall p :: p in cart ==> cart[p] != 0)
  }

  /** One more line keeps the cookie-cart facts. */
  lemma CookieExtend(items: seq<OrderItem>, prev: map<ProductId, int>)
    requires |items| > 0 && CookieCartOf(items[..|items| - 1], prev)
    ensures var it := items[|items| - 1];
            CookieCartOf(items, if it.quantity != 0 then prev[it.product := it.quantity] else prev)
  {
    var n := |items| - 1;
    assert forall i :: 0 <= i < n ==> items[..n][i] == items[i];
    var it := items[n];
    if it.quantity != 0 {
      var cart := prev[it.product := it.quantity];
      assert LastNonZero(items, it.product, n);
      forall p | p in cart && p != it.product
        ensures exists i :: LastNonZero(items, p, i) && cart[p] == items[i].quantity
      {
        var i :| LastNonZero(items[..n], p, i) && prev[p] == items[..n][i].quantity;
        assert LastNonZero(items, p, i);
      }
    } else {
      forall p | p in prev
        ensures exists i :: LastNonZero(items, p, i) && prev[p] == items[i].quantity
      {
        var i :| LastNonZero(items[..n], p, i) && prev[p] == items[..n][i].quantity;
        assert LastNonZero(items, p, i);
      }
    }
  }

  /** With one line per product the cookie cart holds each line's own
      quantity. */
  lemma CookieCartOfDistinct(items: seq<OrderItem>, i: int)
    requires DistinctProducts(items) && 0 <= i < |items| && items[i].quantity != 0
    ensures items[i].product in CreateCookieCart(items)
    ensures CreateCookieCart(items)[items[i].product] == items[i].quantity
  {
    var cart := CreateCookieCart(items);
    var j :| LastNonZero(items, items[i].product, j) && cart[items[i].product] == items[j].quantity;
  }

  /** The cookie-cart summary `correct_cart_order` returns, with the lines
      whose `get_total` it rewrote. */
  datatype CartCorrection = CartCorrection(cart: map<ProductId, int>, orderItems: int, orderTotal: Cents, lines: seq<CartLine>)

  /** `correct_cart_order`: lines with a non-zero quantity go into the cart,
      into the item count and into the total, and get their total recomputed
      as quantity times price. */
  function CorrectCartOrder(items: seq<CartLine>): (r: CartCorrection)
    ensures r.cart == CreateCookieCart(ItemsOf(items))
    ensures r.orderItems == OrderQuantity(ItemsOf(items))
    ensures r.orderTotal == OrderTotal(ItemsOf(items))
    ensures |r.lines| == |items|
    ensures forall i :: 0 <= i < |items| ==>
              r.lines[i] == (if items[i].quantity != 0
                             then items[i].(total := ItemTotal(ItemsOf(items)[i]))
                             else items[i])
    decreases |items|
  {
    if |items| == 0 then CartCorrection(map[], 0, 0, [])
    else
      var n := |items| - 1;
      var prev := CorrectCartOrder(items[..n]);
      var line := items[n];
      CorrectionStep(items);
      if line.quantity != 0 then
        var total := line.quantity * line.price;
        CartCorrection(prev.cart[line.product := line.quantity], prev.orderItems + line.quantity,
                       prev.orderTotal + total, prev.lines + [line.(total := total)])
      else
        CartCorrection(prev.cart, prev.orderItems, prev.orderTotal, prev.lines + [line])
  }

  /** How the reference sums and the cookie cart grow by one line. */
  lemma CorrectionStep(items: seq<CartLine>)
    requires |items| > 0
    ensures var n := |items| - 1;
            ItemsOf(items) == ItemsOf(items[..n]) + [ItemsOf(items)[n]] &&
            OrderQuantity(ItemsOf(items)) == OrderQuantity(ItemsOf(items[..n])) + items[n].quantity &&
            OrderTotal(ItemsOf(items)) == OrderTotal(ItemsOf(items[..n])) + items[n].quantity * items[n].price &&
            ItemsOf(items)[..n] == ItemsOf(items[..n])
  {
    var n := |items| - 1;
    assert ItemsOf(items) == ItemsOf(items[..n]) + [ItemsOf(items)[n]];
    OrderSumsAppend(ItemsOf(items[..n]), [ItemsOf(items)[n]]);
    assert ItemsOf(items)[..n] == ItemsOf(items[..n]);
  }

  // ---------------------------------------------------- cookie cart count

  /** `get_cart_item_quantity`: the number of units in the cookie cart,
      summed in no particular key order. */
  ghost function GetCartItemQuantity(cart: map<ProductId, int>): (r: int)
    ensures (forall p :: p in cart ==> cart[p] >= 0) ==> r >= 0
    decreases cart.Keys
  {
    if cart == map[] then 0
    else
      HasKey(cart);
      var k :| k in cart;
      assert (cart - {k}).Keys == cart.Keys - {k};
      cart[k] + GetCartItemQuantity(cart - {k})
  }

  lemma HasKey(m: map<ProductId, int>)
    requires m != map[]
    ensures exists k :: k in m
  {
    if forall k :: k !in m {
      assert false;
    }
  }

  /** Any key can be counted first. */
  lemma CountRemove(m: map<ProductId, int>, k: ProductId)
    requires k in m
    ensures GetCartItemQuantity(m) == m[k] + GetCartItemQuantity(m - {k})
    decreases m.Keys
  {
    assert (m - {k}).Keys == m.Keys - {k};
    var k0 :| k0 in m && GetCartItemQuantity(m) == m[k0] + GetCartItemQuantity(m - {k0});
    if k0 != k {
      assert (m - {k0}).Keys == m.Keys - {k0};
      CountRemove(m - {k0}, k);
      CountRemove(m - {k}, k0);
      assert m - {k0} - {k} == m - {k} - {k0};
    }
  }

  /** With one line per product, the last line's product is not yet in the
      cart built from the lines before it. */
  lemma LastProductIsNew(items: seq<OrderItem>)
    requires |items| > 0 && DistinctProducts(items)
    ensures items[|items| - 1].product !in CreateCookieCart(items[..|items| - 1])
  {
    var n := |items| - 1;
    var prefix := items[..n];
    assert forall i :: 0 <= i < n ==> prefix[i] == items[i];
  }

  /** Counting the cookie cart built from lines with one line per product
      gives the order's item count: the badge and the order page agree. */
  lemma {:induction false} CartCountMatchesOrder(items: seq<OrderItem>)
    requires DistinctProducts(items)
    ensures GetCartItemQuantity(CreateCookieCart(items)) == OrderQuantity(items)
    decreases |items|
  {
    if |items| > 0 {
      var n := |items| - 1;
      var prefix := items[..n];
      assert DistinctProducts(prefix);
      CartCountMatchesOrder(prefix);
      CountStep(items);
      OrderSumsSnoc(items);
    }
  }

  /** Adding one line for a new product adds its quantity to the count. */
  lemma CountStep(items: seq<OrderItem>)
    requires |items| > 0 && DistinctProducts(items)
    ensures var n := |items| - 1;
            GetCartItemQuantity(CreateCookieCart(items)) ==
              GetCartItemQuantity(CreateCookieCart(items[..n])) + items[n].quantity
  {
    var n := |items| - 1;
    var prev := CreateCookieCart(items[..n]);
    var last := items[n];
    CookieSnoc(items);
    if last.quantity != 0 {
      LastProductIsNew(items);
      AddNewKey(prev, last.product, last.quantity);
    }
  }

  lemma AddNewKey(m: map<ProductId, int>, k: ProductId, v: int)
    requires k !in m
    ensures GetCartItemQuantity(m[k := v]) == GetCartItemQuantity(m) + v
  {
    CountRemove(m[k := v], k);
    assert m[k := v] - {k} == m;
  }

  lemma CookieSnoc(items: seq<OrderItem>)
    requires |items| > 0
    ensures var n := |items| - 1;
            CreateCookieCart(items) ==
              if items[n].quantity != 0 then CreateCookieCart(items[..n])[items[n].product := items[n].quantity]
              else CreateCookieCart(items[..n])
  {
  }

  /** With one line per product, the count of the corrected cookie cart is
      the corrected order's item count. */
  lemma CorrectedCartCount(items: seq<CartLine>)
    requires forall i, j :: 0 <= i < j < |items| ==> items[i].product != items[j].product
    ensures GetCartItemQuantity(CorrectCartOrder(items).cart) == CorrectCartOrder(items).orderItems
  {
    CartCountMatchesOrder(ItemsOf(items));
  }

  /** The checkout correction: a cart checked against the stock and then
      rebuilt never holds more of a product than the stock does. */
  lemma CheckedCartWithinStock(items: seq<CartLine>, stock: StockTable)
    ensures var cart := CorrectCartOrder(CheckQuantityInStock(items, stock).items).cart;
            forall p :: p in cart ==> cart[p] <= Available(stock, p)
  {
    var checked := CheckQuantityInStock(items, stock).items;
    var lines := ItemsOf(checked);
    CheckCapsToStock(items, stock);
    assert forall i :: 0 <= i < |lines| ==> lines[i].quantity <= Available(stock, lines[i].product);
    CookieCartWithinStock(lines, stock);
    assert CorrectCartOrder(checked).cart == CreateCookieCart(lines);
  }

  lemma CookieCartWithinStock(items: seq<OrderItem>, stock: StockTable)
    requires forall i :: 0 <= i < |items| ==> items[i].quantity <= Available(stock, items[i].product)
    ensures var cart := CreateCookieCart(items);
            forall p :: p in cart ==> cart[p] <= Available(stock, p)
  {
    var cart := CreateCookieCart(items);
    forall p | p in cart
      ensures cart[p] <= Available(stock, p)
    {
      var i :| LastNonZero(items, p, i) && cart[p] == items[i].quantity;
    }
  }
}
