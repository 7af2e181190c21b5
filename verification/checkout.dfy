/**
 * The checkout route: the client cart is checked against the products of the
 * CMS, priced from the CMS records only, and handed to the payment provider
 * together with the redirect URLs, the shipping rates and the shipping
 * countries. The CMS lookup and the session creation are oracle inputs.
 */
module Checkout {
  import opened Wrappers
  import opened I18n
  import opened Prismicio

  /** A cart line as the client sends it: only `uid` and `quantity` are read (`name` only for a log line). */
  datatype CartLine = CartLine(uid: Option<string>, name: Option<string>, quantity: int)

  /** The `cart` field of the request body. */
  datatype CartField = NoCart | NotAnArray | Lines(items: seq<CartLine>)

  /** The request body, or `Unparseable` when reading it as JSON throws. */
  datatype RequestBody = Unparseable | Body(cart: CartField, lang: Option<string>)

  /** A CMS document as the route reads it: `asText(data.title)` and `data.bottle_image.url` already extracted. */
  datatype Product = Product(id: string, docType: string, price: Option<int>, title: string, imageUrl: Option<string>)

  /** What a failed call throws: an `Error` with its message, or some other value. */
  datatype Thrown = ErrorObject(message: string) | OtherValue

  datatype FetchOutcome = FetchThrew(thrown: Thrown) | Fetched(products: seq<Product>)

  /** The session the payment provider creates: its `url` may be missing or empty. */
  datatype SessionOutcome = SessionThrew(thrown: Thrown) | Created(url: Option<string>)

  datatype LineItem = LineItem(currency: string, name: string, images: seq<string>, prismicId: string, unitAmount: int, quantity: int)

  datatype ShippingRate = ShippingRate(displayName: string, amount: int, currency: string, minDays: int, maxDays: int)

  datatype SessionRequest = SessionRequest(
    lineItems: seq<LineItem>, successUrl: string, cancelUrl: string,
    shipping: seq<ShippingRate>, countries: seq<string>)

  /** The CMS query: the product ids and the CMS language. */
  datatype Lookup = Lookup(ids: seq<Option<string>>, lang: Option<string>)

  datatype ReplyBody = ErrorBody(error: string) | UrlBody(url: string) | NoBody

  /** The response, with the calls the route made on the way. */
  datatype Reply = Reply(status: int, body: ReplyBody, lookup: Option<Lookup>, session: Option<SessionRequest>)

  const ShippingOptions: seq<ShippingRate> := [
    ShippingRate("Standard Shipping", 1500, "pln", 2, 5),
    ShippingRate("Express Shipping", 3000, "pln", 1, 2)
  ]

  const AllowedCountries: seq<string> := [
    "AT", "BE", "BG", "CY", "CZ", "DE", "DK", "EE", "ES", "FI", "FR", "GR", "HR",
    "HU", "IE", "IS", "IT", "LI", "LT", "LU", "LV", "MT", "NL", "NO", "PL"
  ]

  const DefaultOrigin := "http://localhost:3000"

  /** `[...new Set(xs)]`: each value once, in order of first occurrence. */
  function Dedup(xs: seq<Option<string>>): (r: seq<Option<string>>)
    ensures forall x :: x in r <==> x in xs
    ensures forall i, j :: 0 <= i < j < |r| ==> r[i] != r[j]
  {
    if xs == [] then []
    else
      var d := Dedup(xs[..|xs| - 1]);
      assert forall x :: x in xs <==> x in xs[..|xs| - 1] || x == xs[|xs| - 1] by {
        assert xs == xs[..|xs| - 1] + [xs[|xs| - 1]];
      }
      if xs[|xs| - 1] in d then d else d + [xs[|xs| - 1]]
  }

  function Uids(items: seq<CartLine>): (r: seq<Option<string>>)
    ensures |r| == |items| && forall k :: 0 <= k < |items| ==> r[k] == items[k].uid
  {
    seq(|items|, k requires 0 <= k < |items| => items[k].uid)
  }

  /** `new Map(products.map(p => [p.id, p]))`. */
  function ProductMap(ps: seq<Product>): (m: map<string, Product>)
    ensures forall id :: id in m <==> exists i :: 0 <= i < |ps| && ps[i].id == id
    ensures forall id :: id in m ==> m[id].id == id
  {
    if ps == [] then map[]
    else
      var init := ps[..|ps| - 1];
      assert forall i :: 0 <= i < |init| ==> init[i] == ps[i];
      ProductMap(init)[ps[|ps| - 1].id := ps[|ps| - 1]]
  }

  /** A product whose id does not occur later in the list is the one the map holds: the last one wins. */
  lemma {:induction false} ProductMapLastWins(ps: seq<Product>, i: nat)
    requires i < |ps|
    requires forall j :: i < j < |ps| ==> ps[j].id != ps[i].id
    ensures ProductMap(ps)[ps[i].id] == ps[i]
  {
    if i < |ps| - 1 {
      var init := ps[..|ps| - 1];
      ProductMapLastWins(init, i);
    }
  }

  /** Why a cart line is refused. */
  datatype Rejection = NotFound | NotFragrance

  /** The check of one line: its product must exist and be a fragrance. */
  function Check(line: CartLine, products: map<string, Product>): Option<Rejection> {
    if line.uid.None? || line.uid.value !in products then Some(NotFound)
    else if products[line.uid.value].docType != "fragrance" then Some(NotFragrance)
    else None
  }

  /** The line item of an accepted cart line: priced and named from the CMS record, quantity from the client. */
  function LineItemOf(line: CartLine, product: Product): LineItem {
    LineItem(
      "pln",
      if product.title != "" then product.title else "Unnamed Product",
      if product.imageUrl.Some? && product.imageUrl.value != "" then [product.imageUrl.value] else [],
      product.id,
      if product.price.Some? then product.price.value else 0,
      line.quantity)
  }

  /** Every line of the cart passes its check. */
  predicate Accepted(cart: seq<CartLine>, products: map<string, Product>) {
    forall k :: 0 <= k < |cart| ==> Check(cart[k], products).None?
  }

  /** Line `k` is the first one that fails its check. */
  predicate FirstRejected(cart: seq<CartLine>, products: map<string, Product>, k: int) {
    0 <= k < |cart| && Check(cart[k], products).Some?
    && forall j :: 0 <= j < k ==> Check(cart[j], products).None?
  }

  /** One line item per cart line, in cart order, each priced and named from the line's CMS record. */
  predicate PricedFromCms(cart: seq<CartLine>, products: map<string, Product>, items: seq<LineItem>) {
    |items| == |cart| && forall k :: 0 <= k < |cart| ==>
      cart[k].uid.Some? && cart[k].uid.value in products
      && items[k] == LineItemOf(cart[k], products[cart[k].uid.value])
  }

  /** The reconciliation loop: checks the lines in cart order and builds one line item per line. */
  method Reconcile(cart: seq<CartLine>, products: map<string, Product>) returns (r: Result<seq<LineItem>, (nat, Rejection)>)
    ensures r.Ok? <==> Accepted(cart, products)
    ensures r.Ok? ==> PricedFromCms(cart, products, r.value)
    ensures r.Err? ==> FirstRejected(cart, products, r.error.0) && Check(cart[r.error.0], products) == Some(r.error.1)
  {
    var lineItems: seq<LineItem> := [];
    for k := 0 to |cart|
      invariant |lineItems| == k
      invariant forall j :: 0 <= j < k ==> Check(cart[j], products).None?
      invariant forall j :: 0 <= j < k ==> (cart[j].uid.Some? && cart[j].uid.value in products
        && lineItems[j] == LineItemOf(cart[j], products[cart[j].uid.value]))
    {
      var item := cart[k];
      if item.uid.None? || item.uid.value !in products {
        return Err((k, NotFound));
      }
      var product := products[item.uid.value];
      if product.docType != "fragrance" {
        return Err((k, NotFragrance));
      }
      lineItems := lineItems + [LineItemOf(item, product)];
    }
    return Ok(lineItems);
  }

  function RejectionReply(uid: Option<string>, why: Rejection): (int, string) {
    match why
    case NotFound => (404, "Product with ID " + Interpolate(uid) + " not found.")
    case NotFragrance => (400, "Product with ID " + Interpolate(uid) + " is not a fragrance.")
  }

  /** `error instanceof Error ? error.message : 'Internal Server Error'`. */
  function ErrorMessage(t: Thrown): string {
    match t
    case ErrorObject(m) => m
    case OtherValue => "Internal Server Error"
  }

  /** `request.headers.get('origin') || 'http://localhost:3000'`. */
  function Origin(header: Option<string>): (r: string)
    ensures r != ""
  {
    if header.Some? && header.value != "" then header.value else DefaultOrigin
  }

  function SuccessUrl(origin: string, lang: Option<string>): string {
    origin + "/" + Interpolate(lang) + "/order/success?session_id={CHECKOUT_SESSION_ID}"
  }

  function CancelUrl(origin: string, lang: Option<string>): string {
    origin + "/" + Interpolate(lang) + "/order/cancel"
  }

  /** The cart check: a missing, non-array or empty cart is refused. */
  predicate UsableCart(cart: CartField) {
    cart.Lines? && |cart.items| > 0
  }

  /** The CMS language: `reverseLocaleLookup(lang)`, nothing for a missing `lang`. */
  function CmsLang(lang: Option<string>): Option<string> {
    if lang.Some? then ReverseLocaleLookup(lang.value) else None
  }

  /** `POST /api/checkout`. `originHeader` is the request's `origin` header; the CMS and the payment provider are oracles. */
  method Post(body: RequestBody, originHeader: Option<string>, fetch: FetchOutcome, stripe: SessionOutcome)
    returns (r: Reply)
    ensures body.Unparseable? ==> r == Reply(500, NoBody, None, None)
    ensures body.Body? && !UsableCart(body.cart) ==> r == Reply(400, ErrorBody("Cart is empty or invalid."), None, None)
    ensures body.Body? && UsableCart(body.cart) ==>
      r.lookup == Some(Lookup(Dedup(Uids(body.cart.items)), CmsLang(body.lang)))
    ensures body.Body? && UsableCart(body.cart) && fetch.FetchThrew? ==>
      r.status == 500 && r.body == ErrorBody(ErrorMessage(fetch.thrown)) && r.session.None?
    ensures body.Body? && UsableCart(body.cart) && fetch.Fetched? ==>
      var products := ProductMap(fetch.products);
      var cart := body.cart.items;
      if !Accepted(cart, products) then
        r.session.None? && exists k :: (FirstRejected(cart, products, k)
          && r.status == RejectionReply(cart[k].uid, Check(cart[k], products).value).0
          && r.body == ErrorBody(RejectionReply(cart[k].uid, Check(cart[k], products).value).1))
      else
        var origin := Origin(originHeader);
        r.session.Some? && r.session.value == SessionRequest(
          r.session.value.lineItems,
          SuccessUrl(origin, body.lang), CancelUrl(origin, body.lang), ShippingOptions, AllowedCountries)
        && PricedFromCms(cart, products, r.session.value.lineItems)
        && (stripe.SessionThrew? ==> r.status == 500 && r.body == ErrorBody(ErrorMessage(stripe.thrown)))
        && (stripe.Created? && (stripe.url.None? || stripe.url.value == "") ==>
              r.status == 500 && r.body == ErrorBody("Could not create Stripe session."))
        && (stripe.Created? && stripe.url.Some? && stripe.url.value != "" ==>
              r.status == 200 && r.body == UrlBody(stripe.url.value))
  {
    if body.Unparseable? {
      return Reply(500, NoBody, None, None);
    }
    var lang := body.lang;
    var prismicLang := CmsLang(lang);
    if !UsableCart(body.cart) {
      return Reply(400, ErrorBody("Cart is empty or invalid."), None, None);
    }
    var cart := body.cart.items;
    var lookup := Lookup(Dedup(Uids(cart)), prismicLang);
    if fetch.FetchThrew? {
      return Reply(500, ErrorBody(ErrorMessage(fetch.thrown)), Some(lookup), None);
    }
    var products := ProductMap(fetch.products);
    var reconciled := Reconcile(cart, products);
    if reconciled.Err? {
      var (k, why) := reconciled.error;
      var (status, message) := RejectionReply(cart[k].uid, why);
      return Reply(status, ErrorBody(message), Some(lookup), None);
    }
    var origin := Origin(originHeader);
    var session := SessionRequest(reconciled.value, SuccessUrl(origin, lang), CancelUrl(origin, lang), ShippingOptions, AllowedCountries);
    if stripe.SessionThrew? {
      return Reply(500, ErrorBody(ErrorMessage(stripe.thrown)), Some(lookup), Some(session));
    }
    if stripe.url.None? || stripe.url.value == "" {
      return Reply(500, ErrorBody("Could not create Stripe session."), Some(lookup), Some(session));
    }
    return Reply(200, UrlBody(stripe.url.value), Some(lookup), Some(session));
  }

  /** The amount charged for a line is the CMS price (0 when it has none) times the client quantity; the client's name and price play no part. */
  lemma LineItemPricedFromCms(line: CartLine, product: Product)
    ensures LineItemOf(line, product).unitAmount == (if product.price.Some? then product.price.value else 0)
    ensures LineItemOf(line, product).quantity == line.quantity
    ensures LineItemOf(line, product).prismicId == product.id
    ensures forall n :: LineItemOf(line.(name := n), product) == LineItemOf(line, product)
  {
  }

  /** A line without `uid` is refused first, as "Product with ID undefined not found.", whatever the CMS holds. */
  lemma MissingUidRejected(cart: seq<CartLine>, products: map<string, Product>)
    requires cart != [] && cart[0].uid.None?
    ensures FirstRejected(cart, products, 0)
    ensures RejectionReply(cart[0].uid, Check(cart[0], products).value) == (404, "Product with ID undefined not found.")
  {
    assert "Product with ID " + "undefined" + " not found." == "Product with ID undefined not found.";
  }

  /** A zero CMS price is accepted: a fragrance with price 0 still yields a line item, priced 0. */
  lemma ZeroPriceAccepted(line: CartLine, products: map<string, Product>)
    requires line.uid.Some? && line.uid.value in products
    requires products[line.uid.value].docType == "fragrance"
    requires products[line.uid.value].price == Some(0) || products[line.uid.value].price.None?
    ensures Check(line, products).None?
    ensures LineItemOf(line, products[line.uid.value]).unitAmount == 0
  {
  }

  /** The CMS is asked for each cart identifier exactly once. */
  lemma LookupIdsAreCartIds(items: seq<CartLine>)
    ensures forall u :: u in Dedup(Uids(items)) <==> exists k :: 0 <= k < |items| && items[k].uid == u
    ensures |Dedup(Uids(items))| <= |items|
  {
    var u := Uids(items);
    DedupNoLonger(u);
    forall x | x in Dedup(u) ensures exists k :: 0 <= k < |items| && items[k].uid == x {
      var k :| 0 <= k < |u| && u[k] == x;
    }
  }

  lemma {:induction false} DedupNoLonger(xs: seq<Option<string>>)
    ensures |Dedup(xs)| <= |xs|
  {
    if xs != [] {
      DedupNoLonger(xs[..|xs| - 1]);
    }
  }

  /** The redirect URLs share the origin and language; success carries the session placeholder. */
  lemma RedirectUrls(header: Option<string>, lang: string)
    ensures header.None? || header == Some("") ==>
      SuccessUrl(Origin(header), Some(lang)) == "http://localhost:3000/" + lang + "/order/success?session_id={CHECKOUT_SESSION_ID}"
    ensures header.Some? && header.value != "" ==>
      CancelUrl(Origin(header), Some(lang)) == header.value + "/" + lang + "/order/cancel"
  {
  }
}
