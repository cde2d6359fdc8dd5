/** `decreasing_stock_items` (e_commerce/shop/utils.py): after a sale, each
    sold line is taken out of its product's stock batches front to back. */
module StockDrain {
  import opened Outcomes
  import opened Models

  /** The part of the database the sale touches: the stock table and the set
      of products whose `sold` flag is set. */
  datatype Store = Store(stock: StockTable, sold: set<ProductId>)

  predicate NonNegative(q: seq<Batch>) {
    forall i :: 0 <= i < |q| ==> q[i].quantity >= 0
  }

  /** Every batch is empty: the condition `all(not x.quantity for x in q)`. */
  predicate AllEmpty(q: seq<Batch>) {
    forall i :: 0 <= i < |q| ==> q[i].quantity == 0
  }

  /** `r` is what is left of `q` after draining from the front: a suffix of
      `q`, except that its first batch may be a positive remainder of the
      batch at the same place in `q`. */
  predicate DrainShape(q: seq<Batch>, r: seq<Batch>) {
    |r| <= |q| &&
    var k := |q| - |r|;
    r == q[k..] ||
    (k < |q| && r[0] == q[k].(quantity := r[0].quantity) && r[0].quantity > 0 && r[1..] == q[k + 1..])
  }

  /** The loop over one product's cached batches, as a recursive reference
      definition: whole batches are deleted while they hold less than is
      still needed; the batch that covers the rest is deleted when it
      matches exactly and decremented otherwise. Running past the last
      batch is the IndexError of `q[i]`. */
  function Drain(q: seq<Batch>, need: int): (r: Result<seq<Batch>, ShopError>)
    ensures r.Success? ==> DrainShape(q, r.value)
    ensures r.Failure? ==> r.error == IndexOutOfRange
  {
    if |q| == 0 then Failure(IndexOutOfRange)
    else if q[0].quantity < need then
      var r := Drain(q[1..], need - q[0].quantity);
      if r.Success? then ShapeExtends(q, r.value); r else r
    else if q[0].quantity == need then
      assert q[1..] == q[|q| - |q[1..]|..];
      Success(q[1..])
    else
      var rest := [q[0].(quantity := q[0].quantity - need)] + q[1..];
      assert rest[1..] == q[1..];
      Success(rest)
  }

  /** A drain shape of the tail is a drain shape of the whole list. */
  lemma ShapeExtends(q: seq<Batch>, r: seq<Batch>)
    requires |q| > 0 && DrainShape(q[1..], r)
    ensures DrainShape(q, r)
  {
    var k := |q| - |r|;
    assert q[1..][k - 1..] == q[k..];
    if r != q[1..][k - 1..] {
      assert q[1..][k - 1] == q[k];
      assert q[1..][k..] == q[k + 1..];
    }
  }

  /** The while loop as written: an index walks the cached queryset and the
      loop only ends through `break` or the IndexError. It computes exactly
      the reference definition. */
  method DrainBatches(q: seq<Batch>, requested: int) returns (r: Result<seq<Batch>, ShopError>)
    requires |q| > 0
    ensures r == Drain(q, requested)
  {
    var quantity := requested;
    var i := 0;
    while i < |q|
      invariant 0 <= i <= |q|
      invariant Drain(q[i..], quantity) == Drain(q, requested)
      decreases |q| - i
    {
      if q[i].quantity < quantity {
        quantity := quantity - q[i].quantity;
      } else {
        if q[i].quantity == quantity {
          r := Success(q[i + 1..]);
        } else {
          r := Success([q[i].(quantity := q[i].quantity - quantity)] + q[i + 1..]);
        }
        return;
      }
      assert q[i..][1..] == q[i + 1..];
      i := i + 1;
    }
    r := Failure(IndexOutOfRange);
  }

  lemma AllEmptyIffZero(q: seq<Batch>)
    requires NonNegative(q)
    ensures AllEmpty(q) <==> StockQuantity(q) == 0
    decreases |q|
  {
    if |q| > 0 {
      AllEmptyIffZero(q[1..]);
      NonNegativeTotal(q[1..]);
      if AllEmpty(q[1..]) && q[0].quantity == 0 {
        assert forall i :: 1 <= i < |q| ==> q[i] == q[1..][i - 1];
      }
    }
  }

  /** Draining succeeds exactly when the request does not exceed the stock,
      and then the stock falls by exactly the request. The remainder is
      never negative. */
  lemma {:induction false} DrainTotal(q: seq<Batch>, need: int)
    requires |q| > 0 && NonNegative(q)
    ensures Drain(q, need).Success? <==> need <= StockQuantity(q)
    ensures Drain(q, need).Success? ==>
              StockQuantity(Drain(q, need).value) == StockQuantity(q) - need &&
              NonNegative(Drain(q, need).value)
    decreases |q|
  {
    if q[0].quantity < need {
      if |q| == 1 {
        assert StockQuantity(q) == q[0].quantity;
      } else {
        DrainTotal(q[1..], need - q[0].quantity);
      }
    } else if q[0].quantity == need {
      assert StockQuantity(q) == need + StockQuantity(q[1..]);
      AllEmptyIffZero(q[1..]);
      NonNegativeTotal(q[1..]);
    } else {
      var r := [q[0].(quantity := q[0].quantity - need)] + q[1..];
      assert r[1..] == q[1..];
      NonNegativeTotal(q[1..]);
    }
  }

  lemma NonNegativeTotal(q: seq<Batch>)
    requires NonNegative(q)
    ensures StockQuantity(q) >= 0
    decreases |q|
  {
    if |q| > 0 {
      NonNegativeTotal(q[1..]);
    }
  }

  /** When the request is within the stock, nothing is left in the batches
      exactly when the whole stock was requested. */
  lemma DrainEmptiesIffAllRequested(q: seq<Batch>, need: int)
    requires |q| > 0 && NonNegative(q) && need <= StockQuantity(q)
    ensures Drain(q, need).Success?
    ensures AllEmpty(Drain(q, need).value) <==> need == StockQuantity(q)
  {
    DrainTotal(q, need);
    AllEmptyIffZero(Drain(q, need).value);
  }

  /** One iteration of the outer loop: the sold line's product has its
      batches drained; the product is flagged sold when no stock of it
      is left, including when it had no batches at all. */
  function SellItem(s: Store, item: OrderItem): (r: Result<Store, ShopError>)
    ensures r.Success? ==> forall p :: p != item.product ==> BatchesOf(r.value.stock, p) == BatchesOf(s.stock, p)
    ensures r.Success? ==> s.sold <= r.value.sold <= s.sold + {item.product}
    ensures r.Success? ==> (item.product in r.value.sold <==> item.product in s.sold || AllEmpty(BatchesOf(r.value.stock, item.product)))
  {
    var q := BatchesOf(s.stock, item.product);
    if |q| == 0 then Success(s.(sold := s.sold + {item.product}))
    else
      match Drain(q, item.quantity)
      case Failure(e) => Failure(e)
      case Success(rest) =>
        Success(Store(s.stock[item.product := rest],
                      if AllEmpty(rest) then s.sold + {item.product} else s.sold))
  }

  /** The single-line sale law: with non-negative batches, selling `n` units
      fails exactly when there are batches and `n` exceeds their total; on
      success the product's stock falls by exactly `n`, and the product ends
      up flagged sold exactly when it was already, had no batches, or `n`
      was its whole stock. */
  lemma SellItemLaw(s: Store, item: OrderItem)
    requires NonNegative(BatchesOf(s.stock, item.product))
    ensures var q := BatchesOf(s.stock, item.product);
            SellItem(s, item).Success? <==> (|q| == 0 || item.quantity <= StockQuantity(q))
    ensures var q := BatchesOf(s.stock, item.product);
            SellItem(s, item).Success? && |q| > 0 ==>
              StockQuantity(BatchesOf(SellItem(s, item).value.stock, item.product)) == StockQuantity(q) - item.quantity
    ensures var q := BatchesOf(s.stock, item.product);
            SellItem(s, item).Success? ==>
              (item.product in SellItem(s, item).value.sold <==>
                 item.product in s.sold || |q| == 0 || item.quantity == StockQuantity(q))
  {
    var q := BatchesOf(s.stock, item.product);
    if |q| > 0 {
      DrainTotal(q, item.quantity);
      if item.quantity <= StockQuantity(q) {
        DrainEmptiesIffAllRequested(q, item.quantity);
      }
    }
  }

  /** `decreasing_stock_items`: the lines are sold one after another; the
      first IndexError ends the whole call. Products that no line mentions
      keep their batches and their flag, and flags are only ever set. */
  function DecreasingStockItems(s: Store, items: seq<OrderItem>): (r: Result<Store, ShopError>)
    ensures r.Success? ==> s.sold <= r.value.sold
    ensures r.Success? ==> forall p :: (forall i :: 0 <= i < |items| ==> items[i].product != p) ==>
              BatchesOf(r.value.stock, p) == BatchesOf(s.stock, p) && (p in r.value.sold <==> p in s.sold)
    decreases |items|
  {
    if |items| == 0 then Success(s)
    else
      match SellItem(s, items[0])
      case Failure(e) => Failure(e)
      case Success(s1) => DecreasingStockItems(s1, items[1..])
  }

  /** Two stores agree on product `p`: the same batches and the same flag. */
  predicate SameAt(s: Store, t: Store, p: ProductId) {
    BatchesOf(s.stock, p) == BatchesOf(t.stock, p) && (p in s.sold <==> p in t.sold)
  }

  /** Selling a line depends only on its own product: two stores that agree
      there succeed alike and still agree there afterwards. */
  lemma SellItemLocal(s: Store, t: Store, item: OrderItem)
    requires SameAt(s, t, item.product)
    ensures SellItem(s, item).Success? <==> SellItem(t, item).Success?
    ensures SellItem(s, item).Success? ==> SameAt(SellItem(s, item).value, SellItem(t, item).value, item.product)
  {
  }

  /** After the first line is sold, the other lines still name distinct
      products, and the store still agrees with the old one on each of
      them. */
  lemma FirstSaleFrames(s: Store, items: seq<OrderItem>)
    requires |items| > 0 && DistinctProducts(items) && SellItem(s, items[0]).Success?
    ensures DistinctProducts(items[1..])
    ensures forall j :: 1 <= j < |items| ==> SameAt(SellItem(s, items[0]).value, s, items[j].product)
  {
    var rest := items[1..];
    forall i, j | 0 <= i < j < |rest| ensures rest[i].product != rest[j].product {
      assert rest[i] == items[i + 1] && rest[j] == items[j + 1];
    }
  }

  /** The whole sale with one line per product: it succeeds exactly when
      every line could be sold on its own from the starting store, and then
      each line's product ends up with the batches and the flag that selling
      that line alone would give it. */
  lemma {:induction false} DecreasingStockItemsLaw(s: Store, items: seq<OrderItem>)
    requires DistinctProducts(items)
    ensures DecreasingStockItems(s, items).Success? <==>
              forall i :: 0 <= i < |items| ==> SellItem(s, items[i]).Success?
    ensures DecreasingStockItems(s, items).Success? ==>
              forall i :: 0 <= i < |items| ==>
                SameAt(DecreasingStockItems(s, items).value, SellItem(s, items[i]).value, items[i].product)
    decreases |items|
  {
    if |items| > 0 && SellItem(s, items[0]).Success? {
      var s1 := SellItem(s, items[0]).value;
      var rest := items[1..];
      FirstSaleFrames(s, items);
      DecreasingStockItemsLaw(s1, rest);
      forall i | 1 <= i < |items|
        ensures items[i] == rest[i - 1]
        ensures SellItem(s1, items[i]).Success? <==> SellItem(s, items[i]).Success?
        ensures SellItem(s, items[i]).Success? ==>
                  SameAt(SellItem(s1, items[i]).value, SellItem(s, items[i]).value, items[i].product)
      {
        SellItemLocal(s1, s, items[i]);
      }
      var r := DecreasingStockItems(s1, rest);
      if r.Success? {
        assert forall j :: 0 <= j < |rest| ==> rest[j].product != items[0].product;
      } else {
        var j :| 0 <= j < |rest| && SellItem(s1, rest[j]).Failure?;
        assert SellItem(s, items[j + 1]).Failure?;
      }
    }
  }

  /** Every batch in the store holds a non-negative quantity. */
  predicate StoreNonNegative(s: Store) {
    forall p :: p in s.stock ==> NonNegative(s.stock[p])
  }

  /** A sale keeps every stored quantity non-negative. */
  lemma {:induction false} DecreasingKeepsNonNegative(s: Store, items: seq<OrderItem>)
    requires StoreNonNegative(s)
    ensures DecreasingStockItems(s, items).Success? ==> StoreNonNegative(DecreasingStockItems(s, items).value)
    decreases |items|
  {
    if |items| > 0 {
      var q := BatchesOf(s.stock, items[0].product);
      if |q| > 0 {
        DrainTotal(q, items[0].quantity);
      }
      var r1 := SellItem(s, items[0]);
      if r1.Success? {
        DecreasingKeepsNonNegative(r1.value, items[1..]);
      }
    }
  }
}
