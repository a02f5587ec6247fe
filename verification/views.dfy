/**
 * The mutating request handlers. Each takes the store and the acting user
 * explicitly and returns an outcome with the store after the request:
 *
 *   Ok        - the write was committed and the user is redirected on
 *   Shown     - a page or form was rendered (a GET, or a POST whose form
 *               did not validate); nothing is written
 *   Forbidden - the access check failed; nothing is written
 *   NotFound  - the primary key in the route matched no record
 */
module Views {
  import opened Collections
  import opened Models

  /** Anything other than POST is handled like a GET. */
  datatype Method = Get | Post

  datatype Outcome = Ok | Shown | Forbidden | NotFound

  datatype Response = Response(outcome: Outcome, store: Store)

  /** The cleaned fields a product form submits. A missing `image` keeps the current one. */
  datatype ProductForm = ProductForm(
    name: string,
    quantity: Cents,
    unit: string,
    pricePerUnit: Cents,
    description: Option<string>,
    image: Option<string>,
    isAvailable: bool)

  /**
   * The form a farmer starts from: the model defaults (`unit` is `"kg"`,
   * `is_available` is checked) with the required values filled in.
   */
  function InitialProductForm(name: string, quantity: Cents, pricePerUnit: Cents): ProductForm {
    ProductForm(name, quantity, DefaultUnit, pricePerUnit, None, None, true)
  }

  /**
   * The model-field validation a product form runs: required, length-bounded
   * name and unit; both decimals within `max_digits`; a non-negative price.
   */
  predicate ProductFormValid(f: ProductForm) {
    && 0 < |f.name| <= NameMaxLength
    && 0 < |f.unit| <= UnitMaxLength
    && -DecimalBound < f.quantity < DecimalBound
    && 0 <= f.pricePerUnit < DecimalBound
  }

  /** The editable fields of `p` are those of `f`. */
  ghost predicate CarriesForm(p: Product, f: ProductForm) {
    && p.name == f.name && p.quantity == f.quantity && p.unit == f.unit
    && p.pricePerUnit == f.pricePerUnit && p.description == f.description
    && p.isAvailable == f.isAvailable
  }

  // ---------------------------------------------------------------------------
  // Access policy.
  // ---------------------------------------------------------------------------

  predicate CanCreateProduct(actor: User) { actor.role == FarmerRole }

  predicate CanModifyProduct(actor: User, p: Product) { p.farmer == actor.id }

  predicate CanSendInquiry(actor: User) { actor.role == BuyerRole }

  /** The actor farms the product the inquiry is about. */
  predicate CanUpdateInquiryStatus(s: Store, actor: User, q: Inquiry) {
    q.product in OwnedProductIds(s, actor.id)
  }

  // ---------------------------------------------------------------------------
  // Handlers.
  // ---------------------------------------------------------------------------

  /** `product_add`: a farmer's valid POST creates one product they own. */
  function ProductAdd(s: Store, actor: User, verb: Method, form: ProductForm): (r: Response)
    ensures r.outcome == Forbidden <==> actor.role != FarmerRole
    ensures r.outcome == Ok <==> actor.role == FarmerRole && verb == Post && ProductFormValid(form)
    ensures r.outcome != NotFound
    ensures r.outcome != Ok ==> r.store == s
    ensures r.outcome == Ok ==>
      && |r.store.products| == |s.products| + 1
      && r.store.products[..|s.products|] == s.products
      && var p := r.store.products[|s.products|];
      && p.farmer == actor.id && p.id == s.clock
      && CarriesForm(p, form) && p.image == form.image
      && p.createdAt == p.updatedAt == s.clock
      && r.store.users == s.users && r.store.rates == s.rates
      && r.store.inquiries == s.inquiries && r.store.clock == s.clock + 1
  {
    if !CanCreateProduct(actor) then Response(Forbidden, s)
    else if verb == Post && ProductFormValid(form) then
      var p := Product(s.clock, form.name, form.quantity, form.unit, form.pricePerUnit,
                       form.description, form.image, actor.id, s.clock, s.clock, form.isAvailable);
      Response(Ok, s.(products := s.products + [p], clock := s.clock + 1))
    else Response(Shown, s)
  }

  /** `p` after a saved edit through `f` at time `now`. */
  function Edited(p: Product, f: ProductForm, now: nat): (e: Product)
    ensures CarriesForm(e, f)
    ensures e.id == p.id && e.farmer == p.farmer && e.createdAt == p.createdAt
    ensures e.updatedAt == now
    ensures e.image == if f.image.Some? then f.image else p.image
  {
    p.(name := f.name, quantity := f.quantity, unit := f.unit,
       pricePerUnit := f.pricePerUnit, description := f.description,
       image := if f.image.Some? then f.image else p.image,
       isAvailable := f.isAvailable, updatedAt := now)
  }

  /** `product_edit`: only the owning farmer's valid POST changes the product. */
  function ProductEdit(s: Store, actor: User, pk: Id, verb: Method, form: ProductForm): (r: Response)
    ensures r.outcome == NotFound <==> pk !in ProductIds(s)
    ensures r.outcome == Forbidden <==>
      pk in ProductIds(s) && !CanModifyProduct(actor, ProductById(s, pk).value)
    ensures r.outcome == Ok <==>
      && pk in ProductIds(s) && CanModifyProduct(actor, ProductById(s, pk).value)
      && verb == Post && ProductFormValid(form)
    ensures r.outcome != Ok ==> r.store == s
    ensures r.outcome == Ok ==>
      && |r.store.products| == |s.products|
      && (forall i :: 0 <= i < |s.products| && s.products[i].id != pk ==>
            r.store.products[i] == s.products[i])
      && (forall i :: 0 <= i < |s.products| && s.products[i].id == pk ==>
            r.store.products[i] == Edited(s.products[i], form, s.clock))
      && r.store.users == s.users && r.store.rates == s.rates
      && r.store.inquiries == s.inquiries && r.store.clock == s.clock + 1
  {
    match ProductById(s, pk)
    case None => Response(NotFound, s)
    case Some(p) =>
      if !CanModifyProduct(actor, p) then Response(Forbidden, s)
      else if verb == Post && ProductFormValid(form) then
        var products := seq(|s.products|, i requires 0 <= i < |s.products| =>
          if s.products[i].id == pk then Edited(s.products[i], form, s.clock) else s.products[i]);
        Response(Ok, s.(products := products, clock := s.clock + 1))
      else Response(Shown, s)
  }

  /** `product_delete`: the owner's POST deletes the product and its inquiries; a GET only asks. */
  function ProductDelete(s: Store, actor: User, pk: Id, verb: Method): (r: Response)
    ensures r.outcome == NotFound <==> pk !in ProductIds(s)
    ensures r.outcome == Forbidden <==>
      pk in ProductIds(s) && !CanModifyProduct(actor, ProductById(s, pk).value)
    ensures r.outcome == Shown <==>
      pk in ProductIds(s) && CanModifyProduct(actor, ProductById(s, pk).value) && verb != Post
    ensures r.outcome != Ok ==> r.store == s
    ensures r.outcome == Ok ==>
      && pk !in ProductIds(r.store)
      && (forall p :: p in r.store.products <==> p in s.products && p.id != pk)
      && (forall q :: q in r.store.inquiries <==> q in s.inquiries && q.product != pk)
      && r.store.users == s.users && r.store.rates == s.rates
  {
    match ProductById(s, pk)
    case None => Response(NotFound, s)
    case Some(p) =>
      if !CanModifyProduct(actor, p) then Response(Forbidden, s)
      else if verb == Post then Response(Ok, DeleteProduct(s, pk))
      else Response(Shown, s)
  }

  /**
   * `send_inquiry`: a missing product is reported before the role check; a
   * buyer's POST with a non-empty message records one pending inquiry.
   */
  function SendInquiry(s: Store, actor: User, pk: Id, verb: Method, message: string): (r: Response)
    ensures r.outcome == NotFound <==> pk !in ProductIds(s)
    ensures r.outcome == Forbidden <==> pk in ProductIds(s) && actor.role != BuyerRole
    ensures r.outcome == Ok <==>
      pk in ProductIds(s) && actor.role == BuyerRole && verb == Post && message != ""
    ensures r.outcome != Ok ==> r.store == s
    ensures r.outcome == Ok ==>
      && |r.store.inquiries| == |s.inquiries| + 1
      && r.store.inquiries[..|s.inquiries|] == s.inquiries
      && var q := r.store.inquiries[|s.inquiries|];
      && q.buyer == actor.id && q.product == pk && q.message == message
      && q.status == Pending && q.id == s.clock && q.createdAt == q.updatedAt == s.clock
      && r.store.users == s.users && r.store.products == s.products
      && r.store.rates == s.rates && r.store.clock == s.clock + 1
  {
    match ProductById(s, pk)
    case None => Response(NotFound, s)
    case Some(p) =>
      if !CanSendInquiry(actor) then Response(Forbidden, s)
      else if verb == Post && message != "" then
        var q := Inquiry(s.clock, actor.id, p.id, message, DefaultStatus, s.clock, s.clock);
        Response(Ok, s.(inquiries := s.inquiries + [q], clock := s.clock + 1))
      else Response(Shown, s)
  }

  /**
   * `update_inquiry_status`: the farmer of the inquiry's product sets its
   * status to the route token, whatever the token is. The route has no
   * method check, so a GET writes.
   */
  function UpdateInquiryStatus(s: Store, actor: User, pk: Id, status: string): (r: Response)
    ensures r.outcome == NotFound <==> pk !in InquiryIds(s)
    ensures r.outcome == Forbidden <==>
      pk in InquiryIds(s) && InquiryById(s, pk).value.product !in OwnedProductIds(s, actor.id)
    ensures r.outcome != Shown
    ensures r.outcome != Ok ==> r.store == s
    ensures r.outcome == Ok ==>
      && |r.store.inquiries| == |s.inquiries|
      && (forall i :: 0 <= i < |s.inquiries| && s.inquiries[i].id != pk ==>
            r.store.inquiries[i] == s.inquiries[i])
      && (forall i :: 0 <= i < |s.inquiries| && s.inquiries[i].id == pk ==>
            && r.store.inquiries[i].status == status
            && r.store.inquiries[i].updatedAt == s.clock
            && r.store.inquiries[i].(status := s.inquiries[i].status,
                                     updatedAt := s.inquiries[i].updatedAt) == s.inquiries[i])
      && r.store.users == s.users && r.store.products == s.products
      && r.store.rates == s.rates && r.store.clock == s.clock + 1
  {
    match InquiryById(s, pk)
    case None => Response(NotFound, s)
    case Some(q) =>
      if !CanUpdateInquiryStatus(s, actor, q) then Response(Forbidden, s)
      else
        var inquiries := seq(|s.inquiries|, i requires 0 <= i < |s.inquiries| =>
          if s.inquiries[i].id == pk then s.inquiries[i].(status := status, updatedAt := s.clock)
          else s.inquiries[i]);
        Response(Ok, s.(inquiries := inquiries, clock := s.clock + 1))
  }
}
