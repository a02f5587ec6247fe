/**
 * The marketplace as a whole: a sequence of events applied to the store,
 * starting from an empty database. An event is a request to one of the
 * mutating handlers made by a logged-in user, a registration, an
 * administrator adding a market rate, or an administrator deleting a user.
 */
module Requests {
  import opened Collections
  import opened Models
  import opened Views
  import opened Integrity

  datatype Request =
    | AddProduct(verb: Method, form: ProductForm)
    | EditProduct(pk: Id, verb: Method, form: ProductForm)
    | RemoveProduct(pk: Id, verb: Method)
    | Inquire(pk: Id, verb: Method, message: string)
    | SetStatus(pk: Id, status: string)

  datatype Event =
    | Visit(session: Id, request: Request)
    | Register(username: string, role: string, phone: Option<string>, address: Option<string>)
    | AddRate(cropName: string, averagePrice: Cents, unit: Option<string>, notes: Option<string>)
    | RemoveUser(uid: Id)

  /** Routes a request to its handler. */
  function Handle(s: Store, actor: User, req: Request): (r: Response)
    ensures r.outcome != Ok ==> r.store == s
    ensures r.outcome == Forbidden ==>
      match req
      case AddProduct(_, _) => actor.role != FarmerRole
      case EditProduct(pk, _, _) => ProductById(s, pk).Some? && ProductById(s, pk).value.farmer != actor.id
      case RemoveProduct(pk, _) => ProductById(s, pk).Some? && ProductById(s, pk).value.farmer != actor.id
      case Inquire(pk, _, _) => pk in ProductIds(s) && actor.role != BuyerRole
      case SetStatus(pk, _) =>
        InquiryById(s, pk).Some? && InquiryById(s, pk).value.product !in OwnedProductIds(s, actor.id)
  {
    match req
    case AddProduct(verb, form) => ProductAdd(s, actor, verb, form)
    case EditProduct(pk, verb, form) => ProductEdit(s, actor, pk, verb, form)
    case RemoveProduct(pk, verb) => ProductDelete(s, actor, pk, verb)
    case Inquire(pk, verb, message) => SendInquiry(s, actor, pk, verb, message)
    case SetStatus(pk, status) => UpdateInquiryStatus(s, actor, pk, status)
  }

  /**
   * One event. A visit whose session names no current user is turned away
   * to the login page. A registration must pick one of the two roles and a
   * new username; a market rate must pass model validation; otherwise the
   * event changes nothing.
   */
  function Step(s: Store, e: Event): Store {
    match e
    case Visit(session, req) =>
      var found := FindFirst(s.users, (u: User) => u.id == session);
      if found.Some? then Handle(s, found.value, req).store else s
    case Register(username, role, phone, address) =>
      var r := CreateUser(s, username, Some(role), phone, address);
      if role in RoleChoices && r.Some? then r.value else s
    case AddRate(cropName, averagePrice, unit, notes) =>
      var r := CreateMarketRate(s, cropName, averagePrice, unit, notes);
      if r.Some? then r.value else s
    case RemoveUser(uid) => DeleteUser(s, uid)
  }

  function Run(s: Store, events: seq<Event>): Store
    decreases |events|
  {
    if |events| == 0 then s else Run(Step(s, events[0]), events[1..])
  }

  lemma HandleKeepsValid(s: Store, actor: User, req: Request)
    requires Valid(s) && actor in s.users
    ensures Valid(Handle(s, actor, req).store)
  {
    match req
    case AddProduct(verb, form) => ProductAddKeepsValid(s, actor, verb, form);
    case EditProduct(pk, verb, form) => ProductEditKeepsValid(s, actor, pk, verb, form);
    case RemoveProduct(pk, verb) => ProductDeleteKeepsValid(s, actor, pk, verb);
    case Inquire(pk, verb, message) => SendInquiryKeepsValid(s, actor, pk, verb, message);
    case SetStatus(pk, status) => UpdateInquiryStatusKeepsValid(s, actor, pk, status);
  }

  lemma StepKeepsValid(s: Store, e: Event)
    requires Valid(s)
    ensures Valid(Step(s, e))
  {
    match e
    case Visit(session, req) =>
      var found := FindFirst(s.users, (u: User) => u.id == session);
      if found.Some? {
        HandleKeepsValid(s, found.value, req);
      }
    case Register(username, role, phone, address) =>
      CreateUserKeepsValid(s, username, Some(role), phone, address);
    case AddRate(cropName, averagePrice, unit, notes) =>
      CreateMarketRateKeepsValid(s, cropName, averagePrice, unit, notes);
    case RemoveUser(uid) =>
      DeleteUserKeepsValid(s, uid);
  }

  lemma {:induction false} RunKeepsValid(s: Store, events: seq<Event>)
    requires Valid(s)
    ensures Valid(Run(s, events))
    decreases |events|
  {
    if |events| > 0 {
      StepKeepsValid(s, events[0]);
      RunKeepsValid(Step(s, events[0]), events[1..]);
    }
  }

  /**
   * Every store the marketplace can reach from an empty database is valid:
   * in particular every inquiry's product and buyer exist, and every
   * product's farmer exists and has the farmer role.
   */
  lemma ReachableStoresAreValid(events: seq<Event>)
    ensures Valid(Run(EmptyStore, events))
    ensures var s := Run(EmptyStore, events);
      forall q :: q in s.inquiries ==> q.product in ProductIds(s) && q.buyer in UserIds(s)
  {
    RunKeepsValid(EmptyStore, events);
    var s := Run(EmptyStore, events);
    forall q | q in s.inquiries
      ensures q.buyer in UserIds(s)
    {
      var u :| u in s.users && u.role == BuyerRole && u.id == q.buyer;
    }
  }
}
