/** Catalogue helpers of e_commerce/shop/utils.py: the brand and price
    filter form, the categories of a super-category, and the brand choices. */
module Catalogue {
  import opened Outcomes
  import opened Models
  import opened Seqs

  /** One bound field of the filter form: absent or empty, an integer, or
      text that `int()` rejects. */
  datatype Bound = Missing | Given(value: int) | Malformed

  /** The POSTed filter form. `nonEmpty` is the truthiness of the form data
      (some field was sent at all); `brands` is `getlist("brand")` as a set. */
  datatype FilterForm = FilterForm(nonEmpty: bool, brands: set<string>, low: Bound, high: Bound)

  const DefaultLow: int := 0
  const DefaultHigh: int := 100000000

  /** The bound a field stands for, in whole currency units. */
  function BoundValue(b: Bound, default: int): int {
    match b
    case Given(v) => v
    case _ => default
  }

  /** The price window, inclusive at both ends; prices are in hundredths. */
  predicate InPriceWindow(p: Product, form: FilterForm) {
    BoundValue(form.low, DefaultLow) * 100 <= p.price <= BoundValue(form.high, DefaultHigh) * 100
  }

  predicate BrandSelected(p: Product, brands: set<string>) {
    p.brand.Some? && p.brand.value in brands
  }

  /** A product the filtered page shows. */
  predicate PassesForm(p: Product, form: FilterForm) {
    InPriceWindow(p, form) && (form.brands == {} || BrandSelected(p, form.brands))
  }

  predicate HasNoBrand(p: Product) {
    p.brand.None?
  }

  /** The brand filter reads the brand name of every product that passed
      the price filter, which fails for a product whose brand was removed. */
  function BrandFilter(ps: seq<Product>, brands: set<string>): (r: Result<seq<Product>, ShopError>)
    ensures r.Failure? <==> exists i :: 0 <= i < |ps| && HasNoBrand(ps[i])
    ensures r.Failure? ==> r.error == MissingRelation
    ensures r.Success? ==> IsSublist(r.value, ps) && forall p :: p in r.value <==> p in ps && BrandSelected(p, brands)
  {
    if exists i :: 0 <= i < |ps| && HasNoBrand(ps[i]) then Failure(MissingRelation)
    else Success(Filter(ps, (p: Product) => BrandSelected(p, brands)))
  }

  /** `handling_brand_price_form`: without form data the list is returned
      as it is; otherwise the products inside the price window (and, when
      brands are selected, of a selected brand) are kept in order. */
  function HandlingBrandPriceForm(form: FilterForm, products: seq<Product>): (r: Result<seq<Product>, ShopError>)
    ensures !form.nonEmpty ==> r == Success(products)
    ensures form.nonEmpty && (form.low.Malformed? || form.high.Malformed?) ==> r == Failure(NotANumber)
    ensures r.Success? ==> IsSublist(r.value, products)
    ensures r.Success? && form.nonEmpty ==> forall i :: 0 <= i < |r.value| ==> PassesForm(r.value[i], form)
    ensures r.Success? && form.nonEmpty ==> forall i :: 0 <= i < |products| && PassesForm(products[i], form) ==> products[i] in r.value
    ensures form.nonEmpty && !form.low.Malformed? && !form.high.Malformed? ==>
              (r.Failure? <==> form.brands != {} && exists i :: 0 <= i < |products| && InPriceWindow(products[i], form) && HasNoBrand(products[i]))
    ensures r.Failure? ==> r.error == NotANumber || r.error == MissingRelation
  {
    if !form.nonEmpty then SublistRefl(products); Success(products)
    else if form.low.Malformed? || form.high.Malformed? then Failure(NotANumber)
    else
      var priced := Filter(products, (p: Product) => InPriceWindow(p, form));
      if form.brands == {} then Success(priced)
      else
        assert (exists i :: 0 <= i < |products| && InPriceWindow(products[i], form) && HasNoBrand(products[i])) ==>
               exists j :: 0 <= j < |priced| && HasNoBrand(priced[j]) by {
          if exists i :: 0 <= i < |products| && InPriceWindow(products[i], form) && HasNoBrand(products[i]) {
            var i :| 0 <= i < |products| && InPriceWindow(products[i], form) && HasNoBrand(products[i]);
            assert products[i] in priced;
          }
        }
        match BrandFilter(priced, form.brands)
        case Failure(e) => Failure(e)
        case Success(branded) =>
          SublistTrans(branded, priced, products);
          Success(branded)
  }

  /** Filtering an already filtered list with the same form changes nothing. */
  lemma FormFilterIdempotent(form: FilterForm, products: seq<Product>)
    requires HandlingBrandPriceForm(form, products).Success?
    ensures HandlingBrandPriceForm(form, HandlingBrandPriceForm(form, products).value) == HandlingBrandPriceForm(form, products)
  {
    var once := HandlingBrandPriceForm(form, products).value;
    if form.nonEmpty {
      FilterAllPass(once, (p: Product) => InPriceWindow(p, form));
      if form.brands != {} {
        FilterAllPass(once, (p: Product) => BrandSelected(p, form.brands));
      }
    }
  }

  // ------------------------------------------------------------ categories

  /** `define_category_with_super_category`: the categories under the given
      super-category, in order. No category sits under the absent one. */
  function DefineCategoryWithSuperCategory(categories: seq<Category>, sc: Option<int>): (r: seq<Category>)
    ensures IsSublist(r, categories)
    ensures forall i :: 0 <= i < |r| ==> sc == Some(r[i].superCategory)
    ensures forall i :: 0 <= i < |categories| && sc == Some(categories[i].superCategory) ==> categories[i] in r
    ensures sc.None? ==> r == []
  {
    Filter(categories, (c: Category) => sc == Some(c.superCategory))
  }

  /** Position `i` holds the first category with the slug. */
  predicate FirstWithSlug(categories: seq<Category>, slug: string, i: int) {
    0 <= i < |categories| && categories[i].slug == slug &&
    forall j :: 0 <= j < i ==> categories[j].slug != slug
  }

  /** The super-category of the first category with the slug, if any. */
  function SuperCategoryOfSlug(slug: string, categories: seq<Category>): (r: Option<int>)
    ensures r.None? <==> forall i :: 0 <= i < |categories| ==> categories[i].slug != slug
    ensures r.Some? ==> exists i :: FirstWithSlug(categories, slug, i) && r.value == categories[i].superCategory
  {
    if |categories| == 0 then None
    else if categories[0].slug == slug then Some(categories[0].superCategory)
    else
      var r := SuperCategoryOfSlug(slug, categories[1..]);
      assert forall i :: 1 <= i < |categories| ==> categories[i] == categories[1..][i - 1];
      if r.Some? then
        var i :| FirstWithSlug(categories[1..], slug, i) && r.value == categories[1..][i].superCategory;
        assert FirstWithSlug(categories, slug, i + 1);
        r
      else r
  }

  /** `define_category_list`: the siblings of the category with the slug,
      itself included; nothing when no category has that slug. */
  function DefineCategoryList(slug: string, categories: seq<Category>): (r: seq<Category>)
    ensures (forall i :: 0 <= i < |categories| ==> categories[i].slug != slug) ==> r == []
    ensures forall i :: FirstWithSlug(categories, slug, i) ==>
                categories[i] in r &&
                forall k :: 0 <= k < |r| ==> r[k].superCategory == categories[i].superCategory
    ensures IsSublist(r, categories)
    ensures forall i, k :: FirstWithSlug(categories, slug, i) && 0 <= k < |categories| && categories[k].superCategory == categories[i].superCategory ==>
              categories[k] in r
  {
    var sc := SuperCategoryOfSlug(slug, categories);
    var r := DefineCategoryWithSuperCategory(categories, sc);
    assert forall i :: FirstWithSlug(categories, slug, i) ==> sc == Some(categories[i].superCategory) by {
      forall i | FirstWithSlug(categories, slug, i)
        ensures sc == Some(categories[i].superCategory)
      {
        var i' :| FirstWithSlug(categories, slug, i') && sc.value == categories[i'].superCategory;
        assert i' == i;
      }
    }
    r
  }

  // ---------------------------------------------------------------- brands

  /** `define_brand_list`: the distinct brand names of the products, each as
      a (value, label) choice of the same name. Python's list order of a set
      is not specified, so the choices are a set. */
  function DefineBrandList(products: seq<Product>): (r: Result<set<(string, string)>, ShopError>)
    ensures r.Failure? <==> exists i :: 0 <= i < |products| && HasNoBrand(products[i])
    ensures r.Success? ==> forall c :: c in r.value ==> c.0 == c.1 && exists i :: 0 <= i < |products| && products[i].brand == Some(c.0)
    ensures r.Success? ==> forall i :: 0 <= i < |products| ==> (products[i].brand.value, products[i].brand.value) in r.value
    ensures r.Success? ==> |r.value| <= |products|
  {
    if exists i :: 0 <= i < |products| && HasNoBrand(products[i]) then Failure(MissingRelation)
    else
      ChoicesBound(products);
      Success(BrandChoices(products))
  }

  /** One (name, name) choice per product, all of them carrying a brand. */
  function BrandChoices(products: seq<Product>): set<(string, string)>
    requires forall i :: 0 <= i < |products| ==> products[i].brand.Some?
  {
    set i | 0 <= i < |products| :: (products[i].brand.value, products[i].brand.value)
  }

  /** Products sharing a brand share a choice, so there are never more
      choices than products. */
  lemma {:induction false} ChoicesBound(products: seq<Product>)
    requires forall i :: 0 <= i < |products| ==> products[i].brand.Some?
    ensures |BrandChoices(products)| <= |products|
    decreases |products|
  {
    if |products| > 0 {
      var n := |products| - 1;
      var name := products[n].brand.value;
      assert forall i :: 0 <= i < n ==> products[..n][i] == products[i];
      ChoicesBound(products[..n]);
      assert BrandChoices(products) == BrandChoices(products[..n]) + {(name, name)};
    }
  }
}
