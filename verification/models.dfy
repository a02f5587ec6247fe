/**
 * The four record types of the marketplace (users, products, market rates,
 * inquiries), the store that holds them as tables, the integrity the
 * database maintains, and the store-level writes: creating records and
 * cascading deletes.
 *
 * Decimal fields with two decimal places are counted in hundredths
 * (`Cents`). Timestamps and fresh primary keys come from one monotone
 * counter, `Store.clock`, which every write advances.
 */
module Models {
  import opened Collections

  type Id = nat

  /** A decimal with two places after the point, counted in hundredths. */
  type Cents = int

  const FarmerRole: string := "farmer"
  const BuyerRole: string := "buyer"
  const RoleChoices: set<string> := {FarmerRole, BuyerRole}
  const DefaultRole: string := FarmerRole

  const Pending: string := "pending"
  const Responded: string := "responded"
  const Closed: string := "closed"
  const StatusChoices: set<string> := {Pending, Responded, Closed}
  const DefaultStatus: string := Pending

  const DefaultUnit: string := "kg"

  /** `max_digits=10, decimal_places=2`: at most eight digits before the point. */
  const DecimalBound: int := 10_000_000_000
  const NameMaxLength: nat := 200
  const UnitMaxLength: nat := 50

  /** A user account; `role` is stored as free text with two intended values. */
  datatype User = User(
    id: Id,
    username: string,
    role: string,
    phone: Option<string>,
    address: Option<string>)

  datatype Product = Product(
    id: Id,
    name: string,
    quantity: Cents,
    unit: string,
    pricePerUnit: Cents,
    description: Option<string>,
    image: Option<string>,
    farmer: Id,
    createdAt: nat,
    updatedAt: nat,
    isAvailable: bool)

  datatype MarketRate = MarketRate(
    id: Id,
    cropName: string,
    averagePrice: Cents,
    unit: string,
    lastUpdated: nat,
    notes: Option<string>)

  /** `status` is free text: nothing checks it against `StatusChoices` on save. */
  datatype Inquiry = Inquiry(
    id: Id,
    buyer: Id,
    product: Id,
    message: string,
    status: string,
    createdAt: nat,
    updatedAt: nat)

  /** The tables, each in insertion order, and the shared counter. */
  datatype Store = Store(
    users: seq<User>,
    products: seq<Product>,
    rates: seq<MarketRate>,
    inquiries: seq<Inquiry>,
    clock: nat)

  const EmptyStore: Store := Store([], [], [], [], 0)

  // Keys of the uniqueness constraints.
  function UserKey(u: User): Id { u.id }
  function Username(u: User): string { u.username }
  function ProductKey(p: Product): Id { p.id }
  function RateKey(m: MarketRate): Id { m.id }
  function CropName(m: MarketRate): string { m.cropName }
  function InquiryKey(q: Inquiry): Id { q.id }

  function UserIds(s: Store): set<Id> { set u | u in s.users :: u.id }
  function ProductIds(s: Store): set<Id> { set p | p in s.products :: p.id }
  function InquiryIds(s: Store): set<Id> { set q | q in s.inquiries :: q.id }
  function Usernames(s: Store): set<string> { set u | u in s.users :: u.username }
  function CropNames(s: Store): set<string> { set m | m in s.rates :: m.cropName }

  /** Ids of the users whose role is exactly `"farmer"`. */
  function FarmerIds(s: Store): set<Id> { set u | u in s.users && u.role == FarmerRole :: u.id }

  /** Ids of the users whose role is exactly `"buyer"`. */
  function BuyerIds(s: Store): set<Id> { set u | u in s.users && u.role == BuyerRole :: u.id }

  /** Ids of the products whose `farmer` is `uid`. */
  function OwnedProductIds(s: Store, uid: Id): set<Id> {
    set p | p in s.products && p.farmer == uid :: p.id
  }

  /** The product with primary key `pk`, as `get_object_or_404` finds it. */
  function ProductById(s: Store, pk: Id): (r: Option<Product>)
    ensures r.Some? ==> r.value in s.products && r.value.id == pk
    ensures r.None? <==> pk !in ProductIds(s)
  {
    FindFirst(s.products, (p: Product) => p.id == pk)
  }

  /** The inquiry with primary key `pk`. */
  function InquiryById(s: Store, pk: Id): (r: Option<Inquiry>)
    ensures r.Some? ==> r.value in s.inquiries && r.value.id == pk
    ensures r.None? <==> pk !in InquiryIds(s)
  {
    FindFirst(s.inquiries, (q: Inquiry) => q.id == pk)
  }

  // ---------------------------------------------------------------------------
  // Integrity the database keeps for every committed state.
  // ---------------------------------------------------------------------------

  /** Primary keys, usernames and crop names are unique. */
  ghost predicate UniqueKeys(s: Store) {
    && UniqueBy(s.users, UserKey)
    && UniqueBy(s.users, Username)
    && UniqueBy(s.products, ProductKey)
    && UniqueBy(s.rates, RateKey)
    && UniqueBy(s.rates, CropName)
    && UniqueBy(s.inquiries, InquiryKey)
  }

  /** Every key and timestamp handed out so far is below the counter. */
  ghost predicate ClockAhead(s: Store) {
    && (forall u :: u in s.users ==> u.id < s.clock)
    && (forall p :: p in s.products ==> p.id < s.clock && p.createdAt <= p.updatedAt < s.clock)
    && (forall m :: m in s.rates ==> m.id < s.clock && m.lastUpdated < s.clock)
    && (forall q :: q in s.inquiries ==> q.id < s.clock && q.createdAt <= q.updatedAt < s.clock)
  }

  /** Field validators: non-negative prices within the decimal bounds. */
  ghost predicate FieldsValid(s: Store) {
    && (forall p :: p in s.products ==>
          0 <= p.pricePerUnit < DecimalBound && -DecimalBound < p.quantity < DecimalBound)
    && (forall m :: m in s.rates ==> 0 <= m.averagePrice < DecimalBound)
  }

  /**
   * Every foreign key points at a live record: each product's farmer is a
   * farmer, and each inquiry's buyer is a buyer and its product exists.
   */
  ghost predicate ReferencesResolve(s: Store) {
    && (forall p :: p in s.products ==> p.farmer in FarmerIds(s))
    && (forall q :: q in s.inquiries ==> q.buyer in BuyerIds(s) && q.product in ProductIds(s))
  }

  ghost predicate Valid(s: Store) {
    UniqueKeys(s) && ClockAhead(s) && FieldsValid(s) && ReferencesResolve(s)
  }

  /** No two market rates share a crop name. */
  lemma AtMostOneRatePerCrop(s: Store, a: MarketRate, b: MarketRate)
    requires Valid(s)
    requires a in s.rates && b in s.rates && a.cropName == b.cropName
    ensures a == b
  {
    UniqueKeyDeterminesElement(s.rates, CropName, a, b);
  }

  // ---------------------------------------------------------------------------
  // Record creation through the ORM, with the model defaults.
  // ---------------------------------------------------------------------------

  /**
   * Creates a user. The username must be new (`AbstractUser.username` is
   * unique); a missing role takes the default `"farmer"`.
   */
  function CreateUser(s: Store, username: string, role: Option<string>,
                      phone: Option<string>, address: Option<string>): (r: Option<Store>)
    ensures r.None? <==> username in Usernames(s)
    ensures r.Some? ==>
      && |r.value.users| == |s.users| + 1
      && r.value.users[..|s.users|] == s.users
      && var u := r.value.users[|s.users|];
      && u.id == s.clock && u.username == username
      && u.role == (if role.Some? then role.value else FarmerRole)
      && r.value.products == s.products && r.value.rates == s.rates
      && r.value.inquiries == s.inquiries && r.value.clock == s.clock + 1
  {
    if username in Usernames(s) then None
    else
      var u := User(s.clock, username, if role.Some? then role.value else DefaultRole, phone, address);
      Some(s.(users := s.users + [u], clock := s.clock + 1))
  }

  /**
   * Creates a market rate after model validation: the crop name must be
   * present, at most 200 characters and new; the unit, when given, present
   * and at most 50 characters; the average price non-negative and within the
   * decimal bounds. A missing unit takes the default `"kg"`.
   */
  function CreateMarketRate(s: Store, cropName: string, averagePrice: Cents,
                            unit: Option<string>, notes: Option<string>): (r: Option<Store>)
    ensures r.None? <==>
      || cropName in CropNames(s) || |cropName| == 0 || |cropName| > NameMaxLength
      || (unit.Some? && (|unit.value| == 0 || |unit.value| > UnitMaxLength))
      || averagePrice < 0 || averagePrice >= DecimalBound
    ensures r.Some? ==>
      && |r.value.rates| == |s.rates| + 1
      && r.value.rates[..|s.rates|] == s.rates
      && var m := r.value.rates[|s.rates|];
      && m.cropName == cropName && m.averagePrice == averagePrice && m.averagePrice >= 0
      && 0 < |m.cropName| <= NameMaxLength && 0 < |m.unit| <= UnitMaxLength
      && m.unit == (if unit.Some? then unit.value else DefaultUnit)
      && r.value.users == s.users && r.value.products == s.products
      && r.value.inquiries == s.inquiries
  {
    if || cropName in CropNames(s) || !(0 < |cropName| <= NameMaxLength)
       || (unit.Some? && !(0 < |unit.value| <= UnitMaxLength))
       || !(0 <= averagePrice < DecimalBound)
    then None
    else
      var m := MarketRate(s.clock, cropName, averagePrice,
                          if unit.Some? then unit.value else DefaultUnit, s.clock, notes);
      Some(s.(rates := s.rates + [m], clock := s.clock + 1))
  }

  // ---------------------------------------------------------------------------
  // Cascading deletes (`on_delete=CASCADE` on every foreign key).
  // ---------------------------------------------------------------------------

  /** Removes product `pk` and every inquiry about it. */
  function DeleteProduct(s: Store, pk: Id): (r: Store)
    ensures forall p :: p in r.products <==> p in s.products && p.id != pk
    ensures pk !in ProductIds(r)
    ensures forall q :: q in r.inquiries <==> q in s.inquiries && q.product != pk
    ensures r.users == s.users && r.rates == s.rates && r.clock == s.clock
  {
    s.(products := Filter(s.products, (p: Product) => p.id != pk),
       inquiries := Filter(s.inquiries, (q: Inquiry) => q.product != pk))
  }

  /**
   * Removes user `uid`, the products they list, the inquiries about those
   * products, and the inquiries they made.
   */
  function DeleteUser(s: Store, uid: Id): (r: Store)
    ensures forall u :: u in r.users <==> u in s.users && u.id != uid
    ensures forall p :: p in r.products <==> p in s.products && p.farmer != uid
    ensures forall q :: q in r.inquiries <==>
      q in s.inquiries && q.buyer != uid && q.product !in OwnedProductIds(s, uid)
    ensures r.rates == s.rates && r.clock == s.clock
  {
    var owned := OwnedProductIds(s, uid);
    s.(users := Filter(s.users, (u: User) => u.id != uid),
       products := Filter(s.products, (p: Product) => p.farmer != uid),
       inquiries := Filter(s.inquiries, (q: Inquiry) => q.buyer != uid && q.product !in owned))
  }
}
