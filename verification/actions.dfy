/** The small state machines of e_commerce/shop/utils.py: editing a cart
    line, liking a review, rating a product, and the checkout message. */
module Actions {
  import opened Outcomes
  import opened Models

  // ------------------------------------------------------ cart line edits

  /** How many lines of the order are for product `p`. */
  function CountLines(items: seq<OrderItem>, p: ProductId): nat {
    if |items| == 0 then 0
    else (if items[0].product == p then 1 else 0) + CountLines(items[1..], p)
  }

  /** The quantity of the line for `p`, or the default of a line about to be
      created when there is none. */
  function QuantityOf(items: seq<OrderItem>, p: ProductId): int {
    if |items| == 0 then OrderItemDefaultQuantity
    else if items[0].product == p then items[0].quantity
    else QuantityOf(items[1..], p)
  }

  /** The lines of every other product, in order. */
  function OtherLines(items: seq<OrderItem>, p: ProductId): seq<OrderItem> {
    if |items| == 0 then []
    else (if items[0].product == p then [] else [items[0]]) + OtherLines(items[1..], p)
  }

  /** Every line holds at least one unit: lines are deleted once they drop
      to zero. */
  predicate PositiveLines(items: seq<OrderItem>) {
    forall i :: 0 <= i < |items| ==> items[i].quantity > 0
  }

  /** Give the line for `p` quantity `q`: it is created (at the end) when
      missing and deleted when `q` is not positive. */
  function SetLine(items: seq<OrderItem>, p: ProductId, price: Cents, q: int): (r: seq<OrderItem>)
    requires CountLines(items, p) <= 1
    ensures CountLines(r, p) == (if q > 0 then 1 else 0)
    ensures QuantityOf(r, p) == (if q > 0 then q else OrderItemDefaultQuantity)
    ensures OtherLines(r, p) == OtherLines(items, p)
    ensures PositiveLines(items) ==> PositiveLines(r)
  {
    if |items| == 0 then
      if q > 0 then
        var r := [OrderItem(p, price, q)];
        assert r[1..] == [];
        r
      else []
    else if items[0].product == p then
      NoLineHasDefault(items[1..], p);
      var r := if q > 0 then [items[0].(quantity := q)] + items[1..] else items[1..];
      assert q > 0 ==> r[1..] == items[1..];
      r
    else
      var rest := SetLine(items[1..], p, price, q);
      var r := [items[0]] + rest;
      assert r[1..] == rest;
      r
  }

  lemma NoLineHasDefault(items: seq<OrderItem>, p: ProductId)
    requires CountLines(items, p) == 0
    ensures QuantityOf(items, p) == OrderItemDefaultQuantity
  {
  }

  const AddAction: string := "add"
  const RemoveAction: string := "remove"

  /** The change an action string asks for; any other text changes nothing. */
  function ActionDelta(action: string): int {
    if action == AddAction then 1 else if action == RemoveAction then -1 else 0
  }

  /** `perform_orderItem_actions`. `catalog` holds the products by id and
      `open` the buyer's open (not completed) order. A sold product is left
      alone; otherwise the open order is fetched or created and the line
      for the product is fetched or created, moved by the action, and
      deleted when its quantity is no longer positive. */
  function PerformOrderItemAction(catalog: map<ProductId, Product>, open: Option<Order>, productId: ProductId, action: string)
    : (r: Result<Option<Order>, ShopError>)
    requires open.Some? ==> !open.value.complete
    ensures productId !in catalog ==> r == Failure(DoesNotExist)
    ensures productId in catalog && catalog[productId].sold ==> r == Success(open)
    ensures r.Success? && !(productId in catalog && catalog[productId].sold) ==>
              var before := open.GetOr(NewOrder()).items;
              var q := QuantityOf(before, productId) + ActionDelta(action);
              r.value.Some? && !r.value.value.complete &&
              CountLines(r.value.value.items, productId) == (if q > 0 then 1 else 0) &&
              (q > 0 ==> QuantityOf(r.value.value.items, productId) == q) &&
              OtherLines(r.value.value.items, productId) == OtherLines(before, productId)
    ensures r.Failure? && productId in catalog ==>
              r.error == MultipleObjectsReturned && CountLines(open.GetOr(NewOrder()).items, productId) > 1
    ensures productId in catalog && !catalog[productId].sold && CountLines(open.GetOr(NewOrder()).items, productId) > 1 ==>
              r == Failure(MultipleObjectsReturned)
  {
    if productId !in catalog then Failure(DoesNotExist)
    else
      var product := catalog[productId];
      if product.sold then Success(open)
      else
        var order := open.GetOr(NewOrder());
        if CountLines(order.items, productId) > 1 then Failure(MultipleObjectsReturned)
        else
          var q := QuantityOf(order.items, productId) + ActionDelta(action);
          Success(Some(order.(items := SetLine(order.items, productId, product.price, q))))
  }

  /** Editing the open order keeps every line positive. */
  lemma PerformKeepsLinesPositive(catalog: map<ProductId, Product>, open: Option<Order>, productId: ProductId, action: string)
    requires open.Some? ==> !open.value.complete
    requires open.Some? ==> PositiveLines(open.value.items)
    ensures var r := PerformOrderItemAction(catalog, open, productId, action);
            r.Success? && r.value.Some? ==> PositiveLines(r.value.value.items)
  {
  }

  /** Removing right after adding gives back the open order's lines. */
  lemma {:induction false} SetLineRestore(items: seq<OrderItem>, p: ProductId, price: Cents)
    requires CountLines(items, p) <= 1 && PositiveLines(items)
    ensures SetLine(SetLine(items, p, price, QuantityOf(items, p) + 1), p, price, QuantityOf(items, p)) == items
    decreases |items|
  {
    if |items| == 0 {
      var once := SetLine(items, p, price, 1);
      assert once == [OrderItem(p, price, 1)];
      assert SetLine(once, p, price, 0) == once[1..];
    } else if items[0].product == p {
      RestoreAtHead(items, p, price);
    } else {
      SetLineRestore(items[1..], p, price);
      RestoreBehindHead(items, p, price);
    }
  }

  lemma RestoreAtHead(items: seq<OrderItem>, p: ProductId, price: Cents)
    requires |items| > 0 && items[0].product == p
    requires CountLines(items, p) <= 1 && PositiveLines(items)
    ensures SetLine(SetLine(items, p, price, QuantityOf(items, p) + 1), p, price, QuantityOf(items, p)) == items
  {
    var q := items[0].quantity;
    NoLineHasDefault(items[1..], p);
    var once := SetLine(items, p, price, q + 1);
    assert once == [items[0].(quantity := q + 1)] + items[1..];
    assert once[1..] == items[1..];
    assert SetLine(once, p, price, q) == [once[0].(quantity := q)] + once[1..];
  }

  lemma RestoreBehindHead(items: seq<OrderItem>, p: ProductId, price: Cents)
    requires |items| > 0 && items[0].product != p
    requires CountLines(items, p) <= 1
    requires SetLine(SetLine(items[1..], p, price, QuantityOf(items, p) + 1), p, price, QuantityOf(items, p)) == items[1..]
    ensures SetLine(SetLine(items, p, price, QuantityOf(items, p) + 1), p, price, QuantityOf(items, p)) == items
  {
    var q := QuantityOf(items, p);
    var rest := items[1..];
    SetLineSkips(items, p, price, q + 1);
    var restOnce := SetLine(rest, p, price, q + 1);
    var once := SetLine(items, p, price, q + 1);
    assert once[1..] == restOnce;
    SetLineSkips(once, p, price, q);
    assert [items[0]] + rest == items;
  }

  /** A line for another product at the front is kept in front. */
  lemma SetLineSkips(items: seq<OrderItem>, p: ProductId, price: Cents, q: int)
    requires |items| > 0 && items[0].product != p && CountLines(items, p) <= 1
    ensures CountLines(items[1..], p) <= 1
    ensures QuantityOf(items[1..], p) == QuantityOf(items, p)
    ensures SetLine(items, p, price, q) == [items[0]] + SetLine(items[1..], p, price, q)
  {
  }

  /** "add" followed by "remove" on an unsold product leaves the buyer's
      open order as it was (an order is created if none was open). */
  lemma AddThenRemove(catalog: map<ProductId, Product>, open: Option<Order>, productId: ProductId)
    requires open.Some? ==> !open.value.complete
    requires open.Some? ==> PositiveLines(open.value.items) && CountLines(open.value.items, productId) <= 1
    requires productId in catalog && !catalog[productId].sold
    ensures var added := PerformOrderItemAction(catalog, open, productId, AddAction);
            added.Success? && added.value.Some? &&
            PerformOrderItemAction(catalog, added.value, productId, RemoveAction) == Success(Some(open.GetOr(NewOrder())))
  {
    var order := open.GetOr(NewOrder());
    SetLineRestore(order.items, productId, catalog[productId].price);
  }

  /** A product as created by the admin is flagged sold, so no cart action
      reaches it until an income arrives. */
  lemma NewProductIgnoresActions(catalog: map<ProductId, Product>, open: Option<Order>, id: ProductId, name: string, price: Cents, action: string)
    requires open.Some? ==> !open.value.complete
    ensures PerformOrderItemAction(catalog[id := NewProduct(id, name, price, None)], open, id, action) == Success(open)
  {
  }

  // ------------------------------------------------------------ likes

  const LikeAdded: string := "Like was added"
  const LikeNotAdded: string := "Like was not added"

  /** `F(n) + 1 if n else 1`: a NULL or zero counter counts as zero. */
  function NullableIncrement(n: Option<int>): (r: int)
    ensures r == n.GetOr(0) + 1
  {
    if n.Some? && n.value != 0 then n.value + 1 else 1
  }

  predicate HasLikeBy(likes: seq<Like>, review: int, author: int) {
    exists i :: 0 <= i < |likes| && likes[i].review == review && likes[i].author == author
  }

  datatype LikeResponse = LikeResponse(message: string, likes: seq<Like>, review: Review)

  /** `modify_like_with_response`: the first like or dislike of an author on
      a review is recorded and counted; any later one is refused. */
  function ModifyLikeWithResponse(likes: seq<Like>, review: Review, author: int, like: bool, dislike: bool): (r: LikeResponse)
    ensures HasLikeBy(likes, review.id, author) ==> r == LikeResponse(LikeNotAdded, likes, review)
    ensures !HasLikeBy(likes, review.id, author) ==>
              r.message == LikeAdded && r.likes == likes + [Like(review.id, author, like, Some(dislike))]
    ensures like ==> r.review.dislikeNum == review.dislikeNum
    ensures !like ==> r.review.likeNum == review.likeNum
    ensures r.review.id == review.id && r.review.grade == review.grade
    ensures !HasLikeBy(likes, review.id, author) && like ==> r.review.likeNum == Some(review.likeNum.GetOr(0) + 1)
    ensures !HasLikeBy(likes, review.id, author) && !like ==> r.review.dislikeNum == Some(review.dislikeNum.GetOr(0) + 1)
  {
    if HasLikeBy(likes, review.id, author) then LikeResponse(LikeNotAdded, likes, review)
    else
      var likes' := likes + [Like(review.id, author, like, Some(dislike))];
      if like then LikeResponse(LikeAdded, likes', review.(likeNum := Some(NullableIncrement(review.likeNum))))
      else LikeResponse(LikeAdded, likes', review.(dislikeNum := Some(NullableIncrement(review.dislikeNum))))
  }

  /** No author has two like records on the same review. */
  predicate OneLikePerAuthor(likes: seq<Like>) {
    forall i, j :: 0 <= i < j < |likes| ==> (likes[i].review, likes[i].author) != (likes[j].review, likes[j].author)
  }

  /** How many records on `review` have the given `like` flag. */
  function CountLikes(likes: seq<Like>, review: int, like: bool): nat {
    if |likes| == 0 then 0
    else CountLikes(likes[..|likes| - 1], review, like) +
         (if likes[|likes| - 1].review == review && likes[|likes| - 1].like == like then 1 else 0)
  }

  /** The review's counters agree with its like records. */
  predicate CountersMatch(likes: seq<Like>, review: Review) {
    review.likeNum.GetOr(0) == CountLikes(likes, review.id, true) &&
    review.dislikeNum.GetOr(0) == CountLikes(likes, review.id, false)
  }

  /** Liking keeps one record per author and review, and keeps the
      counters equal to the number of records. */
  lemma LikeKeepsInvariants(likes: seq<Like>, review: Review, author: int, like: bool, dislike: bool)
    requires OneLikePerAuthor(likes) && CountersMatch(likes, review)
    ensures var r := ModifyLikeWithResponse(likes, review, author, like, dislike);
            OneLikePerAuthor(r.likes) && CountersMatch(r.likes, r.review)
  {
    var r := ModifyLikeWithResponse(likes, review, author, like, dislike);
    if !HasLikeBy(likes, review.id, author) {
      assert r.likes[..|r.likes| - 1] == likes;
    }
  }

  /** A second identical request adds nothing. */
  lemma LikeTwiceIsRefused(likes: seq<Like>, review: Review, author: int, like: bool, dislike: bool)
    ensures var r := ModifyLikeWithResponse(likes, review, author, like, dislike);
            ModifyLikeWithResponse(r.likes, r.review, author, like, dislike) == LikeResponse(LikeNotAdded, r.likes, r.review)
  {
    var r := ModifyLikeWithResponse(likes, review, author, like, dislike);
    if !HasLikeBy(likes, review.id, author) {
      assert r.likes[|likes|].review == review.id && r.likes[|likes|].author == author;
    }
  }

  // ------------------------------------------------------------ rating

  function GradeSum(grades: seq<int>): int {
    if |grades| == 0 then 0 else GradeSum(grades[..|grades| - 1]) + grades[|grades| - 1]
  }

  /** Division rounded up, as `math.ceil(a / b)`. */
  function CeilDiv(a: int, b: int): (r: int)
    requires b > 0
    ensures (r - 1) * b < a <= r * b
  {
    -((-a) / b)
  }

  /** Decimal digits of a natural number, as `str(int(...))` prints it. */
  function NatText(n: nat): (r: string)
    ensures |r| >= 1
    ensures forall i :: 0 <= i < |r| ==> '0' <= r[i] <= '9'
    ensures n < 10 ==> r == ['0' + n as char]
    ensures 10 <= n < 100 ==> r == ['0' + (n / 10) as char, '0' + (n % 10) as char]
    ensures n > 0 ==> r[0] != '0'
  {
    if n < 10 then ['0' + n as char] else NatText(n / 10) + ['0' + (n % 10) as char]
  }

  /** The number a string of decimal digits spells. */
  function DigitsValue(s: string): nat
    requires forall i :: 0 <= i < |s| ==> '0' <= s[i] <= '9'
  {
    if |s| == 0 then 0
    else
      var n := |s| - 1;
      assert forall i :: 0 <= i < n ==> s[..n][i] == s[i];
      10 * DigitsValue(s[..n]) + (s[n] - '0') as nat
  }

  /** Reading the printed digits back gives the number. */
  lemma {:induction false} NatTextRoundTrip(n: nat)
    ensures DigitsValue(NatText(n)) == n
    decreases n
  {
    if n >= 10 {
      var t := NatText(n);
      assert t[..|t| - 1] == NatText(n / 10);
      NatTextRoundTrip(n / 10);
    }
  }

  /** The rating shown on a product page: the integer 0 without reviews,
      otherwise the text of a number. */
  datatype Evaluation = NoReviews | Score(text: string)

  /** `define_product_eval`: twice the mean grade, rounded up, on a scale of
      ten. Grades are never negative (a positive small integer field). */
  function DefineProductEval(grades: seq<nat>): (r: Evaluation)
    ensures |grades| == 0 <==> r == NoReviews
    ensures |grades| > 0 ==>
              exists k: nat :: r == Score(NatText(k)) && (k - 1) * |grades| < 2 * GradeSum(grades) <= k * |grades|
  {
    if |grades| == 0 then NoReviews
    else
      GradeSumNonNegative(grades);
      var k := CeilDiv(2 * GradeSum(grades), |grades|);
      Score(NatText(k))
  }

  lemma {:induction false} GradeSumNonNegative(grades: seq<nat>)
    ensures GradeSum(grades) >= 0
    decreases |grades|
  {
    if |grades| > 0 {
      GradeSumNonNegative(grades[..|grades| - 1]);
    }
  }

  lemma {:induction false} GradeSumBounds(grades: seq<nat>)
    requires forall i :: 0 <= i < |grades| ==> IsMark(grades[i])
    ensures |grades| <= GradeSum(grades) <= 5 * |grades|
    decreases |grades|
  {
    if |grades| > 0 {
      var n := |grades| - 1;
      MarksAreOneToFive(grades[n]);
      assert forall i :: 0 <= i < n ==> grades[..n][i] == grades[i];
      GradeSumBounds(grades[..n]);
    }
  }

  /** With every grade one of the review marks, the rating is one of the
      texts "2" to "10". */
  lemma ProductEvalRange(grades: seq<nat>)
    requires |grades| > 0
    requires forall i :: 0 <= i < |grades| ==> IsMark(grades[i])
    ensures exists k :: 2 <= k <= 10 && DefineProductEval(grades) == Score(NatText(k))
  {
    GradeSumBounds(grades);
    var n := |grades|;
    var k: nat :| DefineProductEval(grades) == Score(NatText(k)) && (k - 1) * n < 2 * GradeSum(grades) <= k * n;
    CeilingBounds(k, n, GradeSum(grades));
  }

  lemma CeilingBounds(k: int, n: int, sum: int)
    requires n > 0 && n <= sum <= 5 * n
    requires (k - 1) * n < 2 * sum <= k * n
    ensures 2 <= k <= 10
  {
  }

  // ------------------------------------------------------------ checkout

  const PaymentSucceeded: string := "Оплата пройшла успішно"
  const Smile: string := ":)"

  /** `get_message_and_warning`: a success message and a smile once some
      line was bought, nothing otherwise. */
  function GetMessageAndWarning(items: seq<OrderItem>): (r: (string, Option<string>))
    ensures |items| == 0 <==> r.0 == ""
    ensures |items| == 0 <==> r.1.None?
    ensures |items| > 0 ==> r == (PaymentSucceeded, Some(Smile))
  {
    if |items| == 0 then ("", None) else (PaymentSucceeded, Some(Smile))
  }
}
