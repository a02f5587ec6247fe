# Agricultural marketplace: a Dafny model of its views and models

This project models the core of a small Django marketplace where farmers list
crops and buyers browse them and send inquiries. It covers two things.

The first is the role-gated request handlers of `agri/views.py`:
`product_add`, `product_edit`, `product_delete`, `send_inquiry` and
`update_inquiry_status`.

The second is the read queries: `home`, `farmer_dashboard`,
`buyer_dashboard`, `my_inquiries` and `market_rates`. They run over the
four record types of `agri/models.py` (`User`, `Product`, `MarketRate`,
`Inquiry`), with those types' choice sets, defaults, validators, uniqueness
constraints, cascade deletes and default orderings.

The model is functional:

- The database is a `Store` value: one sequence per table, plus a monotone
  counter `clock`. The counter hands out fresh primary keys and stands in for
  the `auto_now` / `auto_now_add` timestamps.
- Each handler takes the acting user explicitly, instead of reading
  `request.user`. It returns a `Response` of an outcome (`Ok`, `Shown`,
  `Forbidden`, `NotFound`) and the store after the request.
- Decimal fields with two places are integers counted in hundredths.
- `Requests` chains the handlers, registration, market-rate creation and
  user deletion into runs of events that start from an empty database.
- `Integrity` proves that every step keeps the database invariant `Valid`.
  `Valid` means:
  - keys and usernames are unique, and so are crop names;
  - timestamps are ordered;
  - prices are non-negative and within `max_digits`;
  - every foreign key resolves;
  - each product's farmer has the role `farmer`, and each inquiry's buyer has
    the role `buyer`. The handlers compare roles before writing, and no
    modelled event changes a user's role, so this holds in every reachable
    store.

Modules, one per file:

- `Collections` (collections.dfy): `Option`, order-preserving filter,
  first-match lookup, bounded prefix, key uniqueness, and insertion sort
  under a total preorder. It also has `FirstSorted` / `FilterSorted`, which
  state what a Django `filter(...).order_by(...)[:n]` returns.
- `Text` (text.dfy): ASCII case folding and the substring test behind
  `icontains`, plus code-point lexicographic order.
- `Models` (models.dfy): records, store, integrity, record creation and
  cascading deletes.
- `Views` (views.dfy): the five mutating handlers and their access policy.
- `Queries` (queries.dfy): the listings.
- `Integrity` (integrity.dfy): invariant preservation for every write.
- `Requests` (requests.dfy): request routing and runs of events.
- `Properties` (properties.dfy): properties that relate several operations.

Three points where the model states what the code does rather than what the
declarations suggest:

- `Inquiry.STATUS_CHOICES` (agri/models.py:63-67) declares three statuses.
  `update_inquiry_status` (agri/views.py:216-217) nonetheless stores whatever
  token the route carries, without validating it.
  `Properties.StatusChoicesAreNotEnforced` exhibits a valid store where the
  owner writes `"archived"`.
- `Product.quantity` (agri/models.py:24) carries no `MinValueValidator`,
  unlike `price_per_unit` (agri/models.py:26). The model bounds the quantity
  only by `max_digits`, so a negative quantity is accepted.
- The inquiry-owner check compares `request.user` with
  `inquiry.product.farmer`. The model states it as "the inquiry's product is
  among the products whose farmer is the actor", which needs no
  precondition. `Properties.StatusOwnerCheckIsFarmerCheck` proves that in a
  valid store the two tests agree.

## Model

| member | source | states |
|---|---|---|
| Views.ProductAdd | agri/views.py:87-98 | A non-farmer is refused and nothing is written. Only a farmer's POST of a valid form succeeds. Success appends exactly one product: it is owned by the actor, carries the form's fields, has a fresh key and equal creation and update times, and leaves the other tables alone. A GET or an invalid form writes nothing. |
| Views.Edited | agri/views.py:119-121 | A saved edit takes every editable field from the form. It keeps the key, the owner and the creation time, keeps the image when no new one is uploaded, and refreshes `updated_at`. |
| Views.ProductEdit | agri/views.py:112-125 | A missing pk gives NotFound, and an actor other than the product's farmer gives Forbidden; both leave the store unchanged. Only the owner's valid POST writes. It rewrites exactly the row with that key and leaves every other row and table as it was. |
| Views.ProductDelete | agri/views.py:138-152 | NotFound iff the pk is missing. Forbidden iff the actor is not the owner. The owner's GET only shows the confirmation page and changes nothing. The owner's POST removes that product and exactly the inquiries about it, and nothing else. |
| Views.SendInquiry | agri/views.py:168-184 | A missing product gives NotFound before any role check. A non-buyer gets Forbidden and creates nothing. A buyer's POST with a non-empty message appends one inquiry with buyer = actor, product = pk, that message and status `pending`. |
| Views.UpdateInquiryStatus | agri/views.py:210-217 | NotFound iff the inquiry is missing. Forbidden, with no write, iff the actor does not farm the inquiry's product. Otherwise only that inquiry changes: its status becomes exactly the route token and its update time is refreshed. It never renders a page, so a GET writes too. |
| Models.ProductById | agri/views.py:112 | `get_object_or_404` on products. A product is found iff some product has that key, and what is found has that key and is in the table. |
| Models.InquiryById | agri/views.py:210 | `get_object_or_404` on inquiries, with the same two directions. |
| Models.CreateUser | agri/models.py:13 | Creation fails iff the username is taken. Otherwise it appends one user with a fresh key, and a missing role becomes `farmer`. |
| Models.CreateMarketRate | agri/models.py:46-52 | Creation fails iff the crop name is empty, longer than 200 characters or already taken, or a given unit is empty or longer than 50 characters, or the average price is negative or beyond `max_digits`. Otherwise it appends one rate with that name and price, and a missing unit becomes `kg`. |
| Models.AtMostOneRatePerCrop | agri/models.py:48 | In a valid store two market rates with the same crop name are the same rate. |
| Models.DeleteProduct | agri/models.py:70 | Deleting a product removes exactly that product and exactly the inquiries that point at it. Users, rates and the counter are untouched. |
| Models.DeleteUser | agri/models.py:29-70 | Deleting a user removes exactly that user and exactly the products they farm. An inquiry survives iff the user neither made it nor farms its product. |
| Queries.LatestProducts | agri/views.py:13 | The home page shows at most six products, all available, newest first, with no duplicates beyond the table's. If fewer than six are shown, every available product is shown. Every available product left out is no newer than each one shown. |
| Queries.HomeRates | agri/views.py:16 | The home page shows at most five market rates in crop-name order. If fewer than five are shown, all are shown. Every rate left out sorts after each one shown. |
| Queries.RateListing | agri/views.py:224 | The market-rate page lists every rate exactly once, in ascending crop-name order. |
| Queries.FarmerDashboard | agri/views.py:48 | The dashboard lists exactly the actor's products, each as often as in the table, newest first. |
| Queries.BuyerDashboard | agri/views.py:59-74 | Every result is available. With a non-empty search every result contains the query, ignoring ASCII case, in its name or its non-null description. Every available matching product is included, and the result is a permutation of the filtered set. `low` sorts by non-decreasing price, `high` by non-increasing price, and anything else keeps newest first. |
| Queries.OrderByPrice | agri/views.py:70-74 | The price step permutes its input, sorts by price for `low` or `high`, and leaves the input as it is for any other value. |
| Queries.MyInquiries | agri/views.py:196-199 | A buyer gets exactly the inquiries they made. Any other role gets exactly the inquiries on products they farm. Each appears as often as in the table, newest first. |
| Text.Contains | agri/views.py:65-66 | The scanning substring test is true iff the query occurs at some position of the text. |
| Text.IContainsIgnoresCase | agri/views.py:65-66 | `icontains` gives the same answer when either the text or the query is case-folded first. |
| Queries.EmptySearchFiltersNothing | agri/views.py:62-67 | Skipping the filter for an empty search is unobservable: applied with `""`, the name and description filter keeps every product. |
| Integrity.ProductAddKeepsValid | agri/views.py:94-96 | Adding a product as a logged-in user keeps the database valid. |
| Integrity.ProductEditKeepsValid | agri/views.py:119-121 | Saving an edit keeps the database valid. |
| Integrity.DeleteProductKeepsValid | agri/models.py:70 | Because the inquiries cascade, deleting a product leaves no inquiry pointing at a missing product. |
| Integrity.ProductDeleteKeepsValid | agri/views.py:144-145 | The delete handler keeps the database valid. |
| Integrity.DeleteUserKeepsValid | agri/models.py:29-70 | Because products and inquiries cascade, deleting a user leaves every remaining product, inquiry, buyer and farmer reference resolving. |
| Integrity.SendInquiryKeepsValid | agri/views.py:177-180 | Recording an inquiry keeps the database valid. |
| Integrity.UpdateInquiryStatusKeepsValid | agri/views.py:216-217 | Overwriting a status keeps the database valid. |
| Integrity.CreateUserKeepsValid | agri/models.py:13 | Registering a user keeps the database valid. |
| Integrity.CreateMarketRateKeepsValid | agri/models.py:48-49 | Adding a validated market rate keeps the database valid. |
| Requests.Handle | agri/urls.py:13-26 | Over every routed request, a request that does not succeed leaves the store unchanged. A Forbidden outcome happens only when that handler's access check fails. |
| Requests.HandleKeepsValid | agri/urls.py:13-26 | Every routed request by a user of the store keeps the database valid. |
| Requests.StepKeepsValid | agri/views.py:27-32 | Every event keeps the database valid: a visit, a registration, a new market rate or a user deletion. |
| Requests.RunKeepsValid | agri/models.py:69-70 | Any run of events from a valid database ends in a valid database. |
| Requests.ReachableStoresAreValid | agri/models.py:69-70 | Every database reachable from the empty one is valid, and in it every inquiry's product and buyer exist. |
| Properties.InitialFormAddsAvailableProduct | agri/models.py:25-32 | A product added from the default form is available, sold by the kilogram and owned by the actor. |
| Properties.NewInquiryIsPending | agri/models.py:63-72 | A new inquiry has the default status `pending`, which is one of the three declared statuses. |
| Properties.StatusChoicesAreNotEnforced | agri/views.py:216-217 | Some valid database lets the owning farmer store a status outside the three declared choices. |
| Properties.OwnerMaySetAnyStatus | agri/views.py:212-217 | The owning farmer may set any status from any status. No transition is refused, and looking the inquiry up afterwards finds the new status. |
| Properties.InquiryRoundTrip | agri/views.py:177-217 | A buyer asks about a product and its farmer marks the inquiry `responded`. The buyer's inquiry list then shows that inquiry with status `responded`. |
| Properties.FarmerSeesInquiriesOnOwnProducts | agri/views.py:199 | In a valid database, an inquiry is on a farmer's list iff the product it points at is farmed by that farmer. |
| Properties.StatusOwnerCheckIsFarmerCheck | agri/views.py:210-214 | In a valid store, the status route refuses an actor iff the actor is not the farmer of the inquiry's product. |
| Properties.InquiryListIsPrivate | agri/views.py:196-199 | A buyer sees only their own inquiries. Anyone else sees only inquiries about products they farm. |
| Properties.NewestAvailableIsFeatured | agri/views.py:13 | A product strictly newer than every other product is on the home page whenever it is available. |
| Properties.NewAvailableProductIsFeatured | agri/views.py:13 | A product a farmer has just added as available is on the home page. |
| Properties.DeleteAppendedProduct | agri/models.py:70 | Deleting a product nothing refers to undoes appending it. |
| Properties.AddThenDeleteRestores | agri/views.py:138-147 | When the owner deletes the product they have just added, every table returns to what it was before the add. |
| Properties.DeletedProductDisappears | agri/views.py:145 | After a successful delete the product is on no dashboard, search result or home page, and no inquiry list shows an inquiry about it. |
| Properties.SearchIsCaseInsensitiveSubstring | agri/views.py:63-67 | The query `tom` finds `Tomato` and `Tomatoes are fresh` but not `Potato`. |

## Left out

- Template rendering, flash messages and redirect targets: every rendered page is the single outcome `Shown`, and every redirect after a write is `Ok`.
- `login_required`, sessions and the login, logout and password machinery: the actor is a parameter. In a run of events, a visit whose session names no user is turned away, as the login redirect does.
- `register`: only its effect is modelled (`Models.CreateUser` with a role from the two choices). The password checks and e-mail field of the registration form are not.
- `product_detail`, `contact` and `logout_view`: they render or log out and write nothing.
- Form widgets, whitespace stripping of text fields and the parsing of decimals from form input: a product form arrives already cleaned, and a message is valid iff it is not empty.
- Image upload and file storage: an image is an optional path. An edit without an upload keeps the current image.
- `total_price`: it uses floating-point arithmetic.
- Views.ProductAdd: does not check the `max_digits` bound on `quantity` digit by digit. Both decimals are bounded by the absolute value below 10^8, with two places.
- Queries.OrderByPrice: the order among products of equal price is left unspecified, because it depends on the database.
- Queries.HomeRates: crop names are compared by code point, where the database would use its own collation.
- Text.Contains: case folding covers ASCII letters only. Non-ASCII folding depends on the database backend.
- The `max_length` bounds of `role`, `status`, `phone` and `username` are not enforced. Nothing in the handlers depends on them, and `status` of any length is stored as the route gives it.
- Concurrent requests: every request is applied atomically in sequence.
- The admin panel (`agri/admin.py`): only two of its actions are modelled, adding a market rate (`Models.CreateMarketRate`) and deleting a user (`Models.DeleteUser`), as events of a run. Editing records and changing a user's role there are not.
- The route table (`agri/urls.py`) beyond the mapping of routes to handlers.
