/** The admin-site hooks of e_commerce/shop/admin.py that change or select
    data: booking an income into the stock table and the buyer filter of
    the user list. */
module Admin {
  import opened Outcomes
  import opened Models
  import opened Seqs

  // ------------------------------------------------------------ incomes

  /** What saving an income leaves behind: the stock row tied to the income
      (`None` once it is deleted) and the sold flag written to the income's
      product (`None` when the flag is not written). */
  datatype IncomeSave = IncomeSave(batch: Option<Batch>, sold: Option<bool>)

  /** The stock row a new income creates. */
  function BatchFor(inc: Income, p: ProductId): Batch {
    Batch(p, Some(inc.id), inc.quantity, inc.price, inc.supplier)
  }

  /** `IncomeAdmin.save_model`. `linked` is the stock row tied to the income
      (the relation is one-to-one, so there is at most one) and `previous`
      the income quantity stored before this save.
      A new income creates its stock row and marks its product unsold.
      An edited income moves its row by the change in quantity; when the
      row cannot absorb a reduction it is deleted and the product marked
      sold. Reaching the product of an income without one fails. */
  function SaveIncome(linked: Option<Batch>, previous: int, inc: Income): (r: Result<IncomeSave, ShopError>)
    ensures r.Failure? ==> r.error == MissingRelation && inc.product.None?
    ensures linked.None? ==> (r.Success? <==> inc.product.Some?)
    ensures linked.None? && r.Success? ==>
              r.value.sold == Some(false) && r.value.batch.Some? &&
              var b := r.value.batch.value;
              b.product == inc.product.value && b.income == Some(inc.id) &&
              b.quantity == inc.quantity && b.price == inc.price && b.supplier == inc.supplier
    ensures linked.Some? && r.Success? && r.value.batch.Some? ==>
              var b := r.value.batch.value;
              r.value.sold.None? && b.quantity > 0 &&
              inc.quantity - b.quantity == previous - linked.value.quantity &&
              b == linked.value.(quantity := b.quantity)
    ensures linked.Some? && r.Success? && r.value.batch.None? ==>
              r.value.sold == Some(true) && linked.value.quantity <= previous - inc.quantity
    ensures linked.Some? && linked.value.quantity > previous - inc.quantity ==> r.Success? && r.value.batch.Some?
    ensures linked.Some? && linked.value.quantity <= previous - inc.quantity ==> (r.Failure? <==> inc.product.None?)
  {
    match linked
    case None =>
      if inc.product.None? then Failure(MissingRelation)
      else Success(IncomeSave(Some(BatchFor(inc, inc.product.value)), Some(false)))
    case Some(b) =>
      var dif := previous - inc.quantity;
      if b.quantity <= dif then
        if inc.product.None? then Failure(MissingRelation)
        else Success(IncomeSave(None, Some(true)))
      else Success(IncomeSave(Some(b.(quantity := b.quantity - dif)), None))
  }

  /** Correcting a fresh income: the row it created follows the corrected
      quantity, and a correction to zero removes it and marks the product
      sold. */
  lemma CorrectFreshIncome(inc: Income, corrected: Income)
    requires inc.product.Some? && corrected.product == inc.product
    ensures var created := SaveIncome(None, 0, inc);
            created.Success? &&
            var edited := SaveIncome(created.value.batch, inc.quantity, corrected);
            edited.Success? &&
            (corrected.quantity > 0 ==> edited.value.batch == Some(BatchFor(inc, inc.product.value).(quantity := corrected.quantity))) &&
            (corrected.quantity == 0 ==> edited.value == IncomeSave(None, Some(true)))
  {
  }

  /** Saving an income again without changing its quantity leaves a row
      that still holds stock as it was. */
  lemma ResaveKeepsBatch(b: Batch, inc: Income)
    requires b.quantity > 0
    ensures SaveIncome(Some(b), inc.quantity, inc) == Success(IncomeSave(Some(b), None))
  {
  }

  /** The units already sold from a row (`income quantity - row quantity`)
      survive any number of edits that keep the row. */
  lemma {:induction false} SoldUnitsSurviveEdits(b: Batch, previous: int, edits: seq<Income>)
    requires forall k :: 0 <= k < |edits| ==> edits[k].quantity > previous - b.quantity
    ensures ReplayEdits(b, previous, edits).quantity > 0 || |edits| == 0
    ensures |edits| > 0 ==> edits[|edits| - 1].quantity - ReplayEdits(b, previous, edits).quantity == previous - b.quantity
    decreases |edits|
  {
    if |edits| > 0 {
      var n := |edits| - 1;
      var before := ReplayEdits(b, previous, edits[..n]);
      var last := if n == 0 then previous else edits[n - 1].quantity;
      assert forall k :: 0 <= k < n ==> edits[..n][k] == edits[k];
      SoldUnitsSurviveEdits(b, previous, edits[..n]);
      assert last - before.quantity == previous - b.quantity;
      assert before.quantity > last - edits[n].quantity;
    }
  }

  /** The row after saving each income of `edits` in turn, each save
      reading the quantity the previous one stored; a save that would delete
      the row leaves it unchanged here (it cannot happen under the
      hypothesis of `SoldUnitsSurviveEdits`). */
  function ReplayEdits(b: Batch, previous: int, edits: seq<Income>): Batch
    decreases |edits|
  {
    if |edits| == 0 then b
    else
      var n := |edits| - 1;
      var before := ReplayEdits(b, previous, edits[..n]);
      var last := if n == 0 then previous else edits[n - 1].quantity;
      match SaveIncome(Some(before), last, edits[n])
      case Success(IncomeSave(Some(after), _)) => after
      case _ => before
  }

  // ------------------------------------------------------------ buyers

  const BuyerYes: string := "Так"
  const BuyerNo: string := "Ні"

  /** The users that have a buyer profile (`{buyer.user_id for buyer in buyers}`;
      a buyer without a user matches no user id). */
  function BuyerIds(buyers: seq<Buyer>): (r: set<int>)
    ensures forall id :: id in r <==> exists i :: 0 <= i < |buyers| && buyers[i].user == Some(id)
  {
    set i | 0 <= i < |buyers| && buyers[i].user.Some? :: buyers[i].user.value
  }

  function IsBuyer(ids: set<int>): User -> bool {
    (u: User) => u.id in ids
  }

  function IsNotBuyer(ids: set<int>): User -> bool {
    (u: User) => u.id !in ids
  }

  /** `BuyerListFilter.queryset`: "Так" keeps the users with a buyer
      profile, "Ні" the users without one, in the list's order; any other
      choice returns nothing, which leaves the list unfiltered. */
  function BuyerListFilter(value: Option<string>, users: seq<User>, buyers: seq<Buyer>): (r: Option<seq<User>>)
    ensures r.Some? <==> value == Some(BuyerYes) || value == Some(BuyerNo)
    ensures r.Some? ==> IsSublist(r.value, users)
    ensures r.Some? ==> forall i :: 0 <= i < |r.value| ==>
              (r.value[i].id in BuyerIds(buyers) <==> value == Some(BuyerYes))
    ensures r.Some? ==> forall i :: 0 <= i < |users| && (users[i].id in BuyerIds(buyers) <==> value == Some(BuyerYes)) ==>
              users[i] in r.value
  {
    var ids := BuyerIds(buyers);
    if value == Some(BuyerYes) then Some(Filter(users, IsBuyer(ids)))
    else if value == Some(BuyerNo) then Some(Filter(users, IsNotBuyer(ids)))
    else None
  }

  /** The two choices split the user list: every user shows up under
      exactly one of them. */
  lemma BuyerChoicesPartition(users: seq<User>, buyers: seq<Buyer>)
    ensures var yes := BuyerListFilter(Some(BuyerYes), users, buyers);
            var no := BuyerListFilter(Some(BuyerNo), users, buyers);
            yes.Some? && no.Some? && multiset(yes.value) + multiset(no.value) == multiset(users)
  {
    var ids := BuyerIds(buyers);
    FilterSplit(users, IsBuyer(ids), IsNotBuyer(ids));
  }
}
