/** The shop's records (e_commerce/shop/models.py) as immutable values,
    with the arithmetic the model classes expose as properties. */
module Models {
  import opened Outcomes

  type ProductId = int

  /** Money. Prices are `DecimalField(max_digits=10, decimal_places=2)`,
      held here as a whole number of hundredths. */
  type Cents = int

  datatype Product = Product(id: ProductId, name: string, price: Cents, brand: Option<string>, sold: bool)

  /** One row of the stock table: a batch of a product received with an income. */
  datatype Batch = Batch(product: ProductId, income: Option<int>, quantity: int, price: Cents, supplier: Option<int>)

  /** An order line; `price` is the price of the product it points at. */
  datatype OrderItem = OrderItem(product: ProductId, price: Cents, quantity: int)

  datatype Order = Order(complete: bool, items: seq<OrderItem>)

  datatype Review = Review(id: int, grade: int, likeNum: Option<int>, dislikeNum: Option<int>)

  datatype Like = Like(review: int, author: int, like: bool, dislike: Option<bool>)

  datatype Income = Income(id: int, product: Option<ProductId>, quantity: nat, price: Cents, supplier: Option<int>)

  datatype Category = Category(id: int, name: string, slug: string, superCategory: int)

  datatype User = User(id: int, username: string)

  datatype Buyer = Buyer(user: Option<int>)

  /** A cart line as the cart pages build it from the cookie: the product's
      id and price, the requested quantity and the line total (`get_total`). */
  datatype CartLine = CartLine(product: ProductId, price: Cents, quantity: int, total: Cents)

  /** The stock table grouped by product; each product's batches are in the
      order a `Stock.objects.filter(product=...)` queryset yields them. */
  type StockTable = map<ProductId, seq<Batch>>

  function BatchesOf(stock: StockTable, p: ProductId): seq<Batch> {
    if p in stock then stock[p] else []
  }

  /** Total quantity held in a list of batches. */
  function StockQuantity(q: seq<Batch>): int {
    if |q| == 0 then 0 else q[0].quantity + StockQuantity(q[1..])
  }

  // ---------------------------------------------------------------- defaults

  const OrderItemDefaultQuantity: int := 0
  const ProductDefaultSold: bool := true
  const OrderDefaultComplete: bool := false

  /** The line `OrderItem.objects.get_or_create` makes when none exists. */
  function NewOrderItem(product: ProductId, price: Cents): OrderItem {
    OrderItem(product, price, OrderItemDefaultQuantity)
  }

  /** The order `Order.objects.get_or_create` makes when none is open. */
  function NewOrder(): Order {
    Order(OrderDefaultComplete, [])
  }

  /** A product as the admin creates it, before any income arrives. */
  function NewProduct(id: ProductId, name: string, price: Cents, brand: Option<string>): Product {
    Product(id, name, price, brand, ProductDefaultSold)
  }

  /** The grade choices of a review. */
  const Marks: seq<(int, int)> := [(1, 1), (2, 2), (3, 3), (4, 4), (5, 5)]

  predicate IsMark(grade: int) {
    exists i :: 0 <= i < |Marks| && Marks[i].0 == grade
  }

  /** The grade choices are exactly the integers one to five. */
  lemma MarksAreOneToFive(grade: int)
    ensures IsMark(grade) <==> 1 <= grade <= 5
  {
    if 1 <= grade <= 5 {
      assert Marks[grade - 1].0 == grade;
    }
  }

  // -------------------------------------------------------------- arithmetic

  /** `OrderItem.get_total`: the product's price times the line quantity. */
  function ItemTotal(it: OrderItem): (r: Cents)
    ensures it.quantity == 0 ==> r == 0
    ensures it.price >= 0 && it.quantity >= 0 ==> r >= 0
    ensures it.price > 0 && it.quantity > 0 ==> r >= it.price
  {
    it.price * it.quantity
  }

  /** Every line's product is different: an order holds one line per
      product, and a cart read back from the cookie is keyed by product. */
  predicate DistinctProducts(items: seq<OrderItem>) {
    forall i, j :: 0 <= i < j < |items| ==> items[i].product != items[j].product
  }

  /** `Order.get_order_total`: the sum of the line totals. */
  function OrderTotal(items: seq<OrderItem>): Cents {
    if |items| == 0 then 0 else ItemTotal(items[0]) + OrderTotal(items[1..])
  }

  /** `Order.get_order_items`: the sum of the line quantities. */
  function OrderQuantity(items: seq<OrderItem>): int {
    if |items| == 0 then 0 else items[0].quantity + OrderQuantity(items[1..])
  }

  /** Python's `sum` accumulates from the front, adding the last line last;
      both order sums agree with that order of accumulation. */
  lemma OrderSumsSnoc(items: seq<OrderItem>)
    requires |items| > 0
    ensures var n := |items| - 1;
            OrderTotal(items) == OrderTotal(items[..n]) + ItemTotal(items[n]) &&
            OrderQuantity(items) == OrderQuantity(items[..n]) + items[n].quantity
  {
    var n := |items| - 1;
    assert items == items[..n] + [items[n]];
    OrderSumsAppend(items[..n], [items[n]]);
  }

  /** Both order sums split over a concatenation of lines, so adding a line
      adds exactly its total and its quantity. */
  lemma {:induction false} OrderSumsAppend(a: seq<OrderItem>, b: seq<OrderItem>)
    ensures OrderTotal(a + b) == OrderTotal(a) + OrderTotal(b)
    ensures OrderQuantity(a + b) == OrderQuantity(a) + OrderQuantity(b)
  {
    if |a| == 0 {
      assert a + b == b;
    } else {
      assert (a + b)[1..] == a[1..] + b;
      OrderSumsAppend(a[1..], b);
    }
  }

  /** A freshly created order line changes neither the order's total nor its
      item count: its default quantity is zero. */
  lemma NewOrderItemAddsNothing(items: seq<OrderItem>, product: ProductId, price: Cents)
    ensures OrderTotal(items + [NewOrderItem(product, price)]) == OrderTotal(items)
    ensures OrderQuantity(items + [NewOrderItem(product, price)]) == OrderQuantity(items)
  {
    OrderSumsAppend(items, [NewOrderItem(product, price)]);
  }

  /** An order whose lines all have non-negative price and quantity has a
      non-negative total, and a total of at least its count when every
      price is at least one hundredth. */
  lemma {:induction false} OrderTotalBounds(items: seq<OrderItem>)
    requires forall i :: 0 <= i < |items| ==> items[i].price >= 0 && items[i].quantity >= 0
    ensures OrderTotal(items) >= 0 && OrderQuantity(items) >= 0
    ensures (forall i :: 0 <= i < |items| ==> items[i].price >= 1) ==> OrderTotal(items) >= OrderQuantity(items)
  {
    if |items| > 0 {
      var it := items[0];
      assert forall i :: 0 <= i < |items| - 1 ==> items[1..][i] == items[i + 1];
      OrderTotalBounds(items[1..]);
      if forall i :: 0 <= i < |items| ==> items[i].price >= 1 {
        ScaleAtLeast(it.quantity, it.price);
      }
    }
  }

  lemma ScaleAtLeast(q: int, price: int)
    requires q >= 0 && price >= 1
    ensures q * price >= q
  {
  }

  /** `Stock.get_price_total`: the value of a batch at its purchase price. */
  function PriceTotal(b: Batch): (r: Cents)
    ensures b.quantity == 0 ==> r == 0
    ensures b.price >= 0 && b.quantity >= 0 ==> r >= 0
  {
    b.quantity * b.price
  }

  // ------------------------------------------------------------- upload path

  /** The objects whose image fields use `user_directory_path`. */
  datatype Upload =
    | SuperCategoryIcon(name: string)
    | CategoryIcon(name: string)
    | ProductImageFile(productName: string)
    | PageDataImage(name: string)

  /** The lower-cased class name of the uploading object. */
  function ClassFolder(u: Upload): string {
    match u
    case SuperCategoryIcon(_) => "supercategory"
    case CategoryIcon(_) => "category"
    case ProductImageFile(_) => "productimage"
    case PageDataImage(_) => "pagedata"
  }

  /** The name slugified into the folder: the product's for a product image. */
  function UploadName(u: Upload): string {
    match u
    case ProductImageFile(productName) => productName
    case SuperCategoryIcon(name) => name
    case CategoryIcon(name) => name
    case PageDataImage(name) => name
  }

  /** The text after the first '/' of a path (all of it when there is none). */
  function AfterFirstSlash(s: string): (r: string)
    ensures |r| <= |s|
  {
    if |s| == 0 then ""
    else if s[0] == '/' then s[1..]
    else AfterFirstSlash(s[1..])
  }

  lemma {:induction false} AfterFirstSlashSkips(a: string, b: string)
    requires '/' !in a
    ensures AfterFirstSlash(a + "/" + b) == b
  {
    if |a| == 0 {
      assert a + "/" + b == "/" + b;
    } else {
      assert (a + "/" + b)[1..] == a[1..] + "/" + b;
      AfterFirstSlashSkips(a[1..], b);
    }
  }

  /** `user_directory_path`: "<class>_<slug of name>/<filename>". The
      slugifier is a foreign library, so it is a parameter. */
  function UserDirectoryPath(u: Upload, filename: string, slugify: string -> string): (r: string)
    ensures |r| == |ClassFolder(u)| + 1 + |slugify(UploadName(u))| + 1 + |filename|
    ensures r[..|ClassFolder(u)| + 1] == ClassFolder(u) + "_"
    ensures r[|ClassFolder(u)| + 1..|r| - |filename| - 1] == slugify(UploadName(u))
    ensures r[|r| - |filename| - 1] == '/' && r[|r| - |filename|..] == filename
    ensures '/' !in slugify(UploadName(u)) ==> AfterFirstSlash(r) == filename
  {
    var head, slug := ClassFolder(u) + "_", slugify(UploadName(u));
    var folder := head + slug;
    var r := folder + "/" + filename;
    assert '/' !in ClassFolder(u);
    assert '/' !in slug ==> AfterFirstSlash(r) == filename by {
      if '/' !in slug {
        AfterFirstSlashSkips(folder, filename);
      }
    }
    SplitThree(head, slug, "/" + filename);
    assert r == head + slug + ("/" + filename);
    r
  }

  /** The three parts of a concatenation are read back by slicing. */
  lemma SplitThree(a: string, b: string, c: string)
    ensures (a + b + c)[..|a|] == a
    ensures (a + b + c)[|a|..|a| + |b|] == b
    ensures (a + b + c)[|a| + |b|..] == c
  {
  }
}
