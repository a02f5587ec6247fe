/**
 * Properties that relate several operations: model defaults seen through the
 * handlers, the inquiry workflow, how the listings see a write, and the
 * role scoping of the inquiry list.
 */
module Properties {
  import opened Collections
  import opened Text
  import opened Models
  import opened Views
  import opened Queries

  /**
   * A product added from the initial form (only the required values filled
   * in) is available and sold by the kilogram.
   */
  lemma InitialFormAddsAvailableProduct(s: Store, actor: User, name: string, quantity: Cents, price: Cents)
    requires actor.role == FarmerRole
    requires 0 < |name| <= NameMaxLength
    requires -DecimalBound < quantity < DecimalBound && 0 <= price < DecimalBound
    ensures var r := ProductAdd(s, actor, Post, InitialProductForm(name, quantity, price));
      && r.outcome == Ok
      && var p := r.store.products[|s.products|];
      && p.isAvailable && p.unit == DefaultUnit && p.farmer == actor.id
      && p.description.None? && p.image.None?
  {
  }

  /** A new inquiry starts in the default status, one of the three declared statuses. */
  lemma NewInquiryIsPending(s: Store, actor: User, pk: Id, message: string)
    requires pk in ProductIds(s) && actor.role == BuyerRole && message != ""
    ensures var r := SendInquiry(s, actor, pk, Post, message);
      && r.outcome == Ok
      && r.store.inquiries[|s.inquiries|].status == DefaultStatus
      && r.store.inquiries[|s.inquiries|].status in StatusChoices
  {
  }

  /**
   * The status route stores whatever token it is given: the owning farmer
   * can write a status outside the declared choices, so "every status is one
   * of pending, responded, closed" is not an invariant of the store.
   */
  lemma StatusChoicesAreNotEnforced()
    ensures exists s: Store, actor: User, pk: Id, token: string ::
      && Valid(s) && actor in s.users
      && var r := UpdateInquiryStatus(s, actor, pk, token);
      && r.outcome == Ok
      && (exists q :: q in r.store.inquiries && q.id == pk && q.status !in StatusChoices)
  {
    var farmer := User(0, "f", FarmerRole, None, None);
    var buyer := User(1, "b", BuyerRole, None, None);
    var p := Product(2, "Rice", 1000, DefaultUnit, 2000, None, None, 0, 2, 2, true);
    var q := Inquiry(3, 1, 2, "price?", Pending, 3, 3);
    var s := Store([farmer, buyer], [p], [], [q], 4);
    assert ProductIds(s) == {2};
    assert FarmerIds(s) == {0};
    assert BuyerIds(s) == {1};
    assert OwnedProductIds(s, 0) == {2};
    assert InquiryIds(s) == {3};
    assert Valid(s);
    var r := UpdateInquiryStatus(s, farmer, 3, "archived");
    assert r.store.inquiries[0] in r.store.inquiries;
  }

  /**
   * The owner may set any status, in any order: the workflow refuses no
   * transition, not even one out of `closed`.
   */
  lemma OwnerMaySetAnyStatus(s: Store, actor: User, pk: Id, status: string)
    requires pk in InquiryIds(s)
    requires InquiryById(s, pk).value.product in OwnedProductIds(s, actor.id)
    ensures var r := UpdateInquiryStatus(s, actor, pk, status);
      && r.outcome == Ok
      && InquiryById(r.store, pk).Some? && InquiryById(r.store, pk).value.status == status
  {
  }

  /**
   * The inquiry round trip: a buyer asks about a product, the farmer who
   * lists it marks the inquiry responded, and the buyer's inquiry list then
   * shows that inquiry with the new status.
   */
  lemma InquiryRoundTrip(s: Store, farmer: User, buyer: User, pk: Id, message: string)
    requires Valid(s)
    requires pk in OwnedProductIds(s, farmer.id)
    requires buyer.role == BuyerRole && message != ""
    ensures var asked := SendInquiry(s, buyer, pk, Post, message);
      && asked.outcome == Ok
      && var answered := UpdateInquiryStatus(asked.store, farmer, s.clock, Responded);
      && answered.outcome == Ok
      && exists q :: q in MyInquiries(answered.store, buyer)
                  && q.id == s.clock && q.product == pk && q.status == Responded
  {
  }

  /**
   * Under integrity, the farmer's inquiry list holds exactly the inquiries
   * whose product is listed by that farmer.
   */
  lemma FarmerSeesInquiriesOnOwnProducts(s: Store, actor: User, q: Inquiry)
    requires Valid(s) && actor.role != BuyerRole
    requires q in s.inquiries
    ensures q in MyInquiries(s, actor) <==> ProductById(s, q.product).value.farmer == actor.id
  {
  }

  /**
   * Under integrity, the ownership test the status route uses is the
   * comparison of the actor with the farmer of the inquiry's product.
   */
  lemma StatusOwnerCheckIsFarmerCheck(s: Store, actor: User, pk: Id, status: string)
    requires Valid(s) && pk in InquiryIds(s)
    ensures UpdateInquiryStatus(s, actor, pk, status).outcome == Forbidden <==>
      ProductById(s, InquiryById(s, pk).value.product).value.farmer != actor.id
  {
    var q := InquiryById(s, pk).value;
    var p := ProductById(s, q.product).value;
    if q.product in OwnedProductIds(s, actor.id) {
      var w :| w in s.products && w.farmer == actor.id && w.id == q.product;
      UniqueKeyDeterminesElement(s.products, ProductKey, p, w);
    }
  }

  /**
   * A buyer never sees an inquiry made by someone else, and a farmer never
   * sees an inquiry about a product they do not farm.
   */
  lemma InquiryListIsPrivate(s: Store, actor: User, q: Inquiry)
    requires q in MyInquiries(s, actor)
    ensures actor.role == BuyerRole ==> q.buyer == actor.id
    ensures actor.role != BuyerRole ==>
      exists p :: p in s.products && p.id == q.product && p.farmer == actor.id
  {
  }

  /** The strictly newest available product is always on the home page. */
  lemma NewestAvailableIsFeatured(t: Store, p: Product)
    requires p in t.products && p.isAvailable
    requires forall x :: x in t.products && x != p ==> x.createdAt < p.createdAt
    ensures p in LatestProducts(t)
  {
  }

  /**
   * A product a farmer has just added, if it is available, is featured on
   * the home page: it is newer than everything else in a valid store.
   */
  lemma NewAvailableProductIsFeatured(s: Store, actor: User, form: ProductForm)
    requires Valid(s)
    requires actor.role == FarmerRole && ProductFormValid(form) && form.isAvailable
    ensures var r := ProductAdd(s, actor, Post, form);
      r.store.products[|s.products|] in LatestProducts(r.store)
  {
    var t := ProductAdd(s, actor, Post, form).store;
    var p := t.products[|s.products|];
    assert t.products == s.products + [p];
    assert forall x :: x in t.products && x != p ==> x.createdAt < p.createdAt by {
      assert forall x :: x in t.products && x != p ==> x in s.products;
    }
    NewestAvailableIsFeatured(t, p);
  }

  /** Deleting a product that nothing else refers to undoes appending it. */
  lemma DeleteAppendedProduct(s: Store, p: Product)
    requires forall x :: x in s.products ==> x.id != p.id
    requires forall q :: q in s.inquiries ==> q.product != p.id
    ensures DeleteProduct(s.(products := s.products + [p]), p.id) == s
  {
    var keepProduct := (x: Product) => x.id != p.id;
    FilterAppend(s.products, p, keepProduct);
    FilterKeepsAll(s.products, keepProduct);
    FilterKeepsAll(s.inquiries, (q: Inquiry) => q.product != p.id);
  }

  /**
   * Deleting the product one has just added undoes the add: every table is
   * as before, and only the counter has moved on.
   */
  lemma AddThenDeleteRestores(s: Store, actor: User, form: ProductForm)
    requires Valid(s)
    requires actor.role == FarmerRole && ProductFormValid(form)
    ensures var t := ProductAdd(s, actor, Post, form).store;
      && ProductDelete(t, actor, s.clock, Post).outcome == Ok
      && ProductDelete(t, actor, s.clock, Post).store == s.(clock := s.clock + 1)
  {
    var t := ProductAdd(s, actor, Post, form).store;
    var p := t.products[|s.products|];
    assert t.products == s.products + [p];
    assert t == s.(clock := s.clock + 1).(products := s.products + [p]);
    assert forall q :: q in s.inquiries ==> q.product != p.id by {
      forall q | q in s.inquiries
        ensures q.product != p.id
      {
        var w :| w in s.products && w.id == q.product;
      }
    }
    assert ProductById(t, s.clock) == Some(p) by {
      var found := ProductById(t, s.clock).value;
      assert found !in s.products;
    }
    DeleteAppendedProduct(s.(clock := s.clock + 1), p);
  }

  /**
   * After the owner deletes a product, no listing shows it and no inquiry
   * list shows an inquiry about it.
   */
  lemma DeletedProductDisappears(s: Store, actor: User, pk: Id, viewer: User,
                                 search: Option<string>, priceFilter: Option<string>)
    requires ProductDelete(s, actor, pk, Post).outcome == Ok
    ensures var t := ProductDelete(s, actor, pk, Post).store;
      && (forall p :: p in BuyerDashboard(t, search, priceFilter) ==> p.id != pk)
      && (forall p :: p in LatestProducts(t) ==> p.id != pk)
      && (forall p :: p in FarmerDashboard(t, viewer) ==> p.id != pk)
      && (forall q :: q in MyInquiries(t, viewer) ==> q.product != pk)
  {
  }

  /** The worked search: "tom" finds "Tomato" and "Tomatoes are fresh" but not "Potato". */
  lemma SearchIsCaseInsensitiveSubstring()
    ensures IContains("Tomato", "tom")
    ensures IContains("Tomatoes are fresh", "tom")
    ensures !IContains("Potato", "tom")
  {
    assert Lower("Tomato") == "tomato";
    assert Lower("tom") == "tom";
    assert OccursAt("tom", "tomato", 0);
    assert Lower("Tomatoes are fresh")[0..3] == "tom";
    assert OccursAt("tom", Lower("Tomatoes are fresh"), 0);
    assert Lower("Potato") == "potato";
    assert "potato"[0..3] == "pot" && "potato"[1..4] == "ota";
    assert "potato"[2..5] == "tat" && "potato"[3..6] == "ato";
  }
}
