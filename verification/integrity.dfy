/**
 * Referential integrity: every write the handlers and the ORM perform maps a
 * valid store to a valid store, so every inquiry keeps pointing at a live
 * product and a live buyer, every product at a live farmer, and keys stay
 * unique. The cascade deletes are what makes this hold for deletions.
 */
module Integrity {
  import opened Collections
  import opened Models
  import opened Views

  lemma ProductAddKeepsValid(s: Store, actor: User, verb: Method, form: ProductForm)
    requires Valid(s) && actor in s.users
    ensures Valid(ProductAdd(s, actor, verb, form).store)
  {
  }

  /** Each product row is kept, or rewritten in place with its key, owner and creation time. */
  ghost predicate RowsRewritten(s: Store, t: Store) {
    && |t.products| == |s.products|
    && forall i :: 0 <= i < |t.products| ==>
         && t.products[i].id == s.products[i].id
         && t.products[i].farmer == s.products[i].farmer
         && t.products[i].createdAt == s.products[i].createdAt
         && (t.products[i] == s.products[i] || t.products[i].updatedAt == s.clock)
         && 0 <= t.products[i].pricePerUnit < DecimalBound
         && -DecimalBound < t.products[i].quantity < DecimalBound
  }

  lemma RewriteProductsKeepsValid(s: Store, t: Store)
    requires Valid(s)
    requires t.users == s.users && t.rates == s.rates && t.inquiries == s.inquiries
    requires t.clock == s.clock + 1
    requires RowsRewritten(s, t)
    ensures Valid(t)
  {
  }

  lemma ProductEditKeepsValid(s: Store, actor: User, pk: Id, verb: Method, form: ProductForm)
    requires Valid(s)
    ensures Valid(ProductEdit(s, actor, pk, verb, form).store)
  {
    var r := ProductEdit(s, actor, pk, verb, form);
    if r.outcome == Ok {
      assert ProductFormValid(form);
      assert RowsRewritten(s, r.store) by {
        forall i | 0 <= i < |s.products|
          ensures r.store.products[i] == s.products[i] || r.store.products[i] == Edited(s.products[i], form, s.clock)
        {
        }
        forall i | 0 <= i < |s.products|
          ensures 0 <= r.store.products[i].pricePerUnit < DecimalBound
          ensures -DecimalBound < r.store.products[i].quantity < DecimalBound
        {
          assert s.products[i] in s.products;
        }
      }
      RewriteProductsKeepsValid(s, r.store);
    }
  }

  /** Deleting a product, with its inquiries, keeps the store valid. */
  lemma DeleteProductKeepsValid(s: Store, pk: Id)
    requires Valid(s)
    ensures Valid(DeleteProduct(s, pk))
  {
    var t := DeleteProduct(s, pk);
    assert UniqueKeys(t) by {
      FilterKeepsUnique(s.products, (p: Product) => p.id != pk, ProductKey);
      FilterKeepsUnique(s.inquiries, (q: Inquiry) => q.product != pk, InquiryKey);
    }
    assert ClockAhead(t) && FieldsValid(t);
    assert ReferencesResolve(t) by {
      forall q | q in t.inquiries
        ensures q.buyer in BuyerIds(t) && q.product in ProductIds(t)
      {
        var w :| w in s.products && w.id == q.product;
        assert w in t.products;
      }
    }
  }

  lemma ProductDeleteKeepsValid(s: Store, actor: User, pk: Id, verb: Method)
    requires Valid(s)
    ensures Valid(ProductDelete(s, actor, pk, verb).store)
  {
    if ProductDelete(s, actor, pk, verb).outcome == Ok {
      DeleteProductKeepsValid(s, pk);
    }
  }

  /**
   * Deleting a user, with their products, the inquiries about those products
   * and the inquiries they made, keeps the store valid.
   */
  lemma DeleteUserKeepsValid(s: Store, uid: Id)
    requires Valid(s)
    ensures Valid(DeleteUser(s, uid))
  {
    var t := DeleteUser(s, uid);
    var owned := OwnedProductIds(s, uid);
    FilterKeepsUnique(s.users, (u: User) => u.id != uid, UserKey);
    FilterKeepsUnique(s.users, (u: User) => u.id != uid, Username);
    FilterKeepsUnique(s.products, (p: Product) => p.farmer != uid, ProductKey);
    FilterKeepsUnique(s.inquiries, (q: Inquiry) => q.buyer != uid && q.product !in owned, InquiryKey);
    forall p | p in t.products
      ensures p.farmer in FarmerIds(t)
    {
      var u :| u in s.users && u.role == FarmerRole && u.id == p.farmer;
      assert u in t.users;
    }
    forall q | q in t.inquiries
      ensures q.buyer in BuyerIds(t) && q.product in ProductIds(t)
    {
      var u :| u in s.users && u.role == BuyerRole && u.id == q.buyer;
      assert u in t.users;
      var w :| w in s.products && w.id == q.product;
      assert w.farmer != uid;
      assert w in t.products;
    }
  }

  lemma SendInquiryKeepsValid(s: Store, actor: User, pk: Id, verb: Method, message: string)
    requires Valid(s) && actor in s.users
    ensures Valid(SendInquiry(s, actor, pk, verb, message).store)
  {
  }

  lemma UpdateInquiryStatusKeepsValid(s: Store, actor: User, pk: Id, status: string)
    requires Valid(s)
    ensures Valid(UpdateInquiryStatus(s, actor, pk, status).store)
  {
    var r := UpdateInquiryStatus(s, actor, pk, status);
    if r.outcome == Ok {
      var t := r.store;
      assert forall i :: 0 <= i < |t.inquiries| ==>
        && t.inquiries[i].id == s.inquiries[i].id
        && t.inquiries[i].buyer == s.inquiries[i].buyer
        && t.inquiries[i].product == s.inquiries[i].product
        && t.inquiries[i].createdAt == s.inquiries[i].createdAt
        && (t.inquiries[i].updatedAt == s.inquiries[i].updatedAt || t.inquiries[i].updatedAt == s.clock);
      assert UniqueKeys(t) by {
        forall i, j | 0 <= i < j < |t.inquiries|
          ensures InquiryKey(t.inquiries[i]) != InquiryKey(t.inquiries[j])
        {
          assert InquiryKey(s.inquiries[i]) != InquiryKey(s.inquiries[j]);
        }
      }
      assert FieldsValid(t);
      assert ClockAhead(t) && ReferencesResolve(t) by {
        forall q | q in t.inquiries
          ensures q.id < t.clock && q.createdAt <= q.updatedAt < t.clock
          ensures q.buyer in BuyerIds(t) && q.product in ProductIds(t)
        {
          var i :| 0 <= i < |t.inquiries| && t.inquiries[i] == q;
          assert s.inquiries[i] in s.inquiries;
        }
      }
    }
  }

  lemma CreateUserKeepsValid(s: Store, username: string, role: Option<string>,
                             phone: Option<string>, address: Option<string>)
    requires Valid(s)
    ensures var r := CreateUser(s, username, role, phone, address);
      r.Some? ==> Valid(r.value)
  {
  }

  lemma CreateMarketRateKeepsValid(s: Store, cropName: string, averagePrice: Cents,
                                   unit: Option<string>, notes: Option<string>)
    requires Valid(s)
    ensures var r := CreateMarketRate(s, cropName, averagePrice, unit, notes);
      r.Some? ==> Valid(r.value)
  {
  }
}
