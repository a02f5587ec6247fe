/**
 * The read-only views: the home page, the two dashboards, the market-rate
 * list and the role-scoped inquiry list. Each is a filter followed by a sort
 * over a table of the store, sorted by the model's default ordering unless
 * the request asks for a price order.
 */
module Queries {
  import opened Collections
  import opened Text
  import opened Models

  const HomeProductLimit: nat := 6
  const HomeRateLimit: nat := 5

  const PriceLow: string := "low"
  const PriceHigh: string := "high"

  // ---------------------------------------------------------------------------
  // Orders.
  // ---------------------------------------------------------------------------

  /** Default product order: newest first. */
  predicate NewerProduct(a: Product, b: Product) { a.createdAt >= b.createdAt }

  /** Default inquiry order: newest first. */
  predicate NewerInquiry(a: Inquiry, b: Inquiry) { a.createdAt >= b.createdAt }

  predicate CheaperOrSame(a: Product, b: Product) { a.pricePerUnit <= b.pricePerUnit }

  predicate DearerOrSame(a: Product, b: Product) { a.pricePerUnit >= b.pricePerUnit }

  /** Default market-rate order: crop name ascending. */
  predicate CropOrder(a: MarketRate, b: MarketRate) { LexLe(a.cropName, b.cropName) }

  lemma NewerProductIsTotalPreorder()
    ensures TotalPreorder(NewerProduct)
  {
  }

  lemma NewerInquiryIsTotalPreorder()
    ensures TotalPreorder(NewerInquiry)
  {
  }

  lemma PriceOrdersAreTotalPreorders()
    ensures TotalPreorder(CheaperOrSame) && TotalPreorder(DearerOrSame)
  {
  }

  lemma CropOrderIsTotalPreorder()
    ensures TotalPreorder(CropOrder)
  {
    forall a: MarketRate, b: MarketRate
      ensures CropOrder(a, b) || CropOrder(b, a)
    {
      LexLeTotal(a.cropName, b.cropName);
    }
    forall a: MarketRate, b: MarketRate, c: MarketRate | CropOrder(a, b) && CropOrder(b, c)
      ensures CropOrder(a, c)
    {
      LexLeTransitive(a.cropName, b.cropName, c.cropName);
    }
  }

  // ---------------------------------------------------------------------------
  // Home page.
  // ---------------------------------------------------------------------------

  predicate IsAvailable(p: Product) { p.isAvailable }

  /** `home`: the six newest available products. */
  function LatestProducts(s: Store): (r: seq<Product>)
    ensures |r| <= HomeProductLimit
    ensures forall p :: p in r ==> p in s.products && p.isAvailable
    ensures forall p :: multiset(r)[p] <= multiset(s.products)[p]
    ensures SortedBy(r, NewerProduct)
    ensures |r| < HomeProductLimit ==> forall p :: p in s.products && p.isAvailable ==> p in r
    ensures forall p, x :: p in s.products && p.isAvailable && p !in r && x in r ==> NewerProduct(x, p)
  {
    NewerProductIsTotalPreorder();
    FirstSorted(s.products, IsAvailable, NewerProduct, HomeProductLimit)
  }

  /** `market_rates`: every market rate, by crop name. */
  function RateListing(s: Store): (r: seq<MarketRate>)
    ensures multiset(r) == multiset(s.rates)
    ensures forall i, j :: 0 <= i < j < |r| ==> LexLe(r[i].cropName, r[j].cropName)
  {
    CropOrderIsTotalPreorder();
    SortBy(s.rates, CropOrder)
  }

  predicate AnyRate(m: MarketRate) { true }

  /** `home`: the first five market rates by crop name. */
  function HomeRates(s: Store): (r: seq<MarketRate>)
    ensures |r| <= HomeRateLimit
    ensures forall m :: m in r ==> m in s.rates
    ensures forall m :: multiset(r)[m] <= multiset(s.rates)[m]
    ensures SortedBy(r, CropOrder)
    ensures |r| < HomeRateLimit ==> forall m :: m in s.rates ==> m in r
    ensures forall m, x :: m in s.rates && m !in r && x in r ==> CropOrder(x, m)
  {
    CropOrderIsTotalPreorder();
    FirstSorted(s.rates, AnyRate, CropOrder, HomeRateLimit)
  }

  // ---------------------------------------------------------------------------
  // Dashboards.
  // ---------------------------------------------------------------------------

  /** `farmer_dashboard`: the actor's own products, newest first. */
  function FarmerDashboard(s: Store, actor: User): (r: seq<Product>)
    ensures forall p :: p in r <==> p in s.products && p.farmer == actor.id
    ensures forall p :: multiset(r)[p] == if p.farmer == actor.id then multiset(s.products)[p] else 0
    ensures forall i, j :: 0 <= i < j < |r| ==> r[i].createdAt >= r[j].createdAt
  {
    NewerProductIsTotalPreorder();
    FilterSorted(s.products, (p: Product) => p.farmer == actor.id, NewerProduct)
  }

  /** A search is applied only when the query parameter is present and non-empty. */
  predicate SearchActive(search: Option<string>) {
    search.Some? && search.value != ""
  }

  /**
   * `Q(name__icontains=query) | Q(description__icontains=query)`: the name or
   * the (non-null) description contains the query, ignoring ASCII case.
   */
  predicate NameOrDescriptionContains(p: Product, query: string) {
    IContains(p.name, query) || (p.description.Some? && IContains(p.description.value, query))
  }

  /** A product passes the search step: no search is applied, or it matches. */
  predicate MatchesSearch(p: Product, search: Option<string>) {
    !SearchActive(search) || NameOrDescriptionContains(p, search.value)
  }

  /**
   * Skipping the search for an empty query loses nothing: the name and
   * description filter with `""` would keep every product it is given.
   */
  lemma EmptySearchFiltersNothing(ps: seq<Product>)
    ensures Filter(ps, (p: Product) => NameOrDescriptionContains(p, "")) == ps
  {
    forall p | p in ps
      ensures NameOrDescriptionContains(p, "")
    {
      EmptyQueryMatches(p.name);
    }
    FilterKeepsAll(ps, (p: Product) => NameOrDescriptionContains(p, ""));
  }

  /**
   * `buyer_dashboard`: available products matching the search; cheapest
   * first for `"low"`, dearest first for `"high"`, newest first otherwise.
   * Ties in price are left in an order the model does not promise.
   */
  function BuyerDashboard(s: Store, search: Option<string>, priceFilter: Option<string>): (r: seq<Product>)
    ensures forall p :: p in r ==> p in s.products && p.isAvailable
    ensures SearchActive(search) ==> forall p :: p in r ==> NameOrDescriptionContains(p, search.value)
    ensures forall p :: p in s.products && p.isAvailable && MatchesSearch(p, search) ==> p in r
    ensures forall p :: multiset(r)[p] ==
                        if p.isAvailable && MatchesSearch(p, search) then multiset(s.products)[p] else 0
    ensures priceFilter == Some(PriceLow) ==> SortedBy(r, CheaperOrSame)
    ensures priceFilter == Some(PriceHigh) ==> SortedBy(r, DearerOrSame)
    ensures priceFilter != Some(PriceLow) && priceFilter != Some(PriceHigh) ==> SortedBy(r, NewerProduct)
  {
    NewerProductIsTotalPreorder();
    var newest := FilterSorted(s.products, (p: Product) => p.isAvailable && MatchesSearch(p, search),
                               NewerProduct);
    var r := OrderByPrice(newest, priceFilter);
    assert forall p :: p in r <==> p in multiset(newest);
    r
  }

  /** The `price_filter` step: a price sort for `"low"` or `"high"`, no change otherwise. */
  function OrderByPrice(ps: seq<Product>, priceFilter: Option<string>): (r: seq<Product>)
    ensures multiset(r) == multiset(ps)
    ensures priceFilter == Some(PriceLow) ==> SortedBy(r, CheaperOrSame)
    ensures priceFilter == Some(PriceHigh) ==> SortedBy(r, DearerOrSame)
    ensures priceFilter != Some(PriceLow) && priceFilter != Some(PriceHigh) ==> r == ps
  {
    PriceOrdersAreTotalPreorders();
    if priceFilter == Some(PriceLow) then SortBy(ps, CheaperOrSame)
    else if priceFilter == Some(PriceHigh) then SortBy(ps, DearerOrSame)
    else ps
  }

  // ---------------------------------------------------------------------------
  // Inquiries.
  // ---------------------------------------------------------------------------

  /**
   * `my_inquiries`: a buyer sees the inquiries they made; any other role sees
   * the inquiries about the products they farm. Newest first.
   */
  function MyInquiries(s: Store, actor: User): (r: seq<Inquiry>)
    ensures actor.role == BuyerRole ==>
      forall q :: q in r <==> q in s.inquiries && q.buyer == actor.id
    ensures actor.role != BuyerRole ==>
      forall q :: q in r <==> q in s.inquiries && q.product in OwnedProductIds(s, actor.id)
    ensures actor.role == BuyerRole ==>
      forall q :: multiset(r)[q] == if q.buyer == actor.id then multiset(s.inquiries)[q] else 0
    ensures actor.role != BuyerRole ==>
      forall q :: multiset(r)[q] ==
                  if q.product in OwnedProductIds(s, actor.id) then multiset(s.inquiries)[q] else 0
    ensures forall i, j :: 0 <= i < j < |r| ==> r[i].createdAt >= r[j].createdAt
  {
    NewerInquiryIsTotalPreorder();
    var owned := OwnedProductIds(s, actor.id);
    if actor.role == BuyerRole
    then FilterSorted(s.inquiries, (q: Inquiry) => q.buyer == actor.id, NewerInquiry)
    else FilterSorted(s.inquiries, (q: Inquiry) => q.product in owned, NewerInquiry)
  }
}
