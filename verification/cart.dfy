/**
 * The shopping cart: a list of lines keyed by `id`, replaced as a whole by
 * each updater, and the two totals folded over it.
 */
module Cart {
  import opened Wrappers

  /** A cart line. `id` may be missing (`undefined`) when a caller passes none; `uid` is carried along when given. */
  datatype CartItem = CartItem(id: Option<string>, uid: Option<string>, name: string, price: int, image: string, quantity: int)

  /** What `addToCart` receives: a line without its quantity. */
  datatype NewItem = NewItem(id: Option<string>, uid: Option<string>, name: string, price: int, image: string)

  function Min(a: int, b: int): int { if a < b then a else b }
  function Max(a: int, b: int): int { if a > b then a else b }

  /** `Math.max(1, Math.min(99, quantity))`. */
  function Clamp(q: int): (r: int)
    ensures 1 <= r <= 99
    ensures 1 <= q <= 99 ==> r == q
    ensures q < 1 ==> r == 1
    ensures q > 99 ==> r == 99
  {
    Max(1, Min(99, q))
  }

  predicate HasId(cart: seq<CartItem>, id: Option<string>) {
    exists i :: 0 <= i < |cart| && cart[i].id == id
  }

  /** The lines whose id is `id` get one more, at most 99; the others are kept. */
  function Bumped(cart: seq<CartItem>, id: Option<string>): seq<CartItem> {
    seq(|cart|, i requires 0 <= i < |cart| =>
      if cart[i].id == id then cart[i].(quantity := Min(99, cart[i].quantity + 1)) else cart[i])
  }

  /** The updater of `addToCart`. */
  function Added(cart: seq<CartItem>, item: NewItem): seq<CartItem> {
    if HasId(cart, item.id) then Bumped(cart, item.id)
    else cart + [CartItem(item.id, item.uid, item.name, item.price, item.image, 1)]
  }

  /** The updater of `removeFromCart`: `filter(item => item.id !== id)`. */
  function Removed(cart: seq<CartItem>, id: Option<string>): (r: seq<CartItem>)
    ensures forall x :: x in r <==> x in cart && x.id != id
    ensures |r| <= |cart|
  {
    if cart == [] then []
    else (if cart[0].id != id then [cart[0]] else []) + Removed(cart[1..], id)
  }

  /** The updater of `updateQuantity`: the matching lines get the clamped quantity. */
  function Updated(cart: seq<CartItem>, id: Option<string>, quantity: int): (r: seq<CartItem>)
    ensures |r| == |cart|
    ensures forall i :: 0 <= i < |cart| ==>
      r[i] == (if cart[i].id == id then cart[i].(quantity := Clamp(quantity)) else cart[i])
  {
    var q := Clamp(quantity);
    seq(|cart|, i requires 0 <= i < |cart| => if cart[i].id == id then cart[i].(quantity := q) else cart[i])
  }

  /** `cart.reduce((sum, item) => sum + item.quantity, 0)`. */
  function TotalItems(cart: seq<CartItem>): int {
    if cart == [] then 0 else TotalItems(cart[..|cart| - 1]) + cart[|cart| - 1].quantity
  }

  /** `cart.reduce((sum, item) => sum + item.price * item.quantity, 0)`. */
  function TotalPrice(cart: seq<CartItem>): int {
    if cart == [] then 0 else TotalPrice(cart[..|cart| - 1]) + cart[|cart| - 1].price * cart[|cart| - 1].quantity
  }

  /** The cart invariant: ids are unique and every quantity is between 1 and 99. */
  predicate WellFormed(cart: seq<CartItem>) {
    (forall i, j :: 0 <= i < j < |cart| ==> cart[i].id != cart[j].id)
    && (forall i :: 0 <= i < |cart| ==> 1 <= cart[i].quantity <= 99)
  }

  /** The cart state of `CartProvider`; each updater replaces the whole list. */
  class CartStore {
    var cart: seq<CartItem>

    constructor ()
      ensures cart == []
    {
      cart := [];
    }

    method AddToCart(item: NewItem)
      modifies this
      ensures cart == Added(old(cart), item)
    {
      cart := Added(cart, item);
    }

    method RemoveFromCart(id: Option<string>)
      modifies this
      ensures cart == Removed(old(cart), id)
    {
      cart := Removed(cart, id);
    }

    method UpdateQuantity(id: Option<string>, quantity: int)
      modifies this
      ensures cart == Updated(old(cart), id, quantity)
    {
      cart := Updated(cart, id, quantity);
    }

    method ClearCart()
      modifies this
      ensures cart == []
    {
      cart := [];
    }
  }

  /** Adding an id already present keeps the length and raises that line by one, capped at 99. */
  lemma AddExisting(cart: seq<CartItem>, item: NewItem, k: nat)
    requires WellFormed(cart) && k < |cart| && cart[k].id == item.id
    ensures |Added(cart, item)| == |cart|
    ensures Added(cart, item) == cart[k := cart[k].(quantity := Min(99, cart[k].quantity + 1))]
  {
  }

  /** Adding a new id appends one line with quantity 1 and leaves the others as they were. */
  lemma AddNew(cart: seq<CartItem>, item: NewItem)
    requires !HasId(cart, item.id)
    ensures |Added(cart, item)| == |cart| + 1
    ensures Added(cart, item)[..|cart|] == cart
    ensures Added(cart, item)[|cart|] == CartItem(item.id, item.uid, item.name, item.price, item.image, 1)
  {
  }

  /** `removeFromCart` keeps the order of what remains: it distributes over concatenation. */
  lemma {:induction false} RemovedConcat(a: seq<CartItem>, b: seq<CartItem>, id: Option<string>)
    ensures Removed(a + b, id) == Removed(a, id) + Removed(b, id)
  {
    if a != [] {
      assert (a + b)[1..] == a[1..] + b;
      RemovedConcat(a[1..], b, id);
    } else {
      assert a + b == b;
    }
  }

  /** An unknown id leaves the cart as it is, for both `removeFromCart` and `updateQuantity`. */
  lemma {:induction false} UnknownIdIsNoOp(cart: seq<CartItem>, id: Option<string>, quantity: int)
    requires !HasId(cart, id)
    ensures Removed(cart, id) == cart
    ensures Updated(cart, id, quantity) == cart
  {
    if cart != [] {
      assert !HasId(cart[1..], id) by {
        forall i | 0 <= i < |cart[1..]| ensures cart[1..][i].id != id {
          assert cart[1..][i] == cart[i + 1];
        }
      }
      UnknownIdIsNoOp(cart[1..], id, quantity);
      assert cart == [cart[0]] + cart[1..];
    }
  }

  /** Every updater keeps the invariant. */
  lemma AddKeepsWellFormed(cart: seq<CartItem>, item: NewItem)
    requires WellFormed(cart)
    ensures WellFormed(Added(cart, item))
  {
  }

  /** The tail of a well-formed cart is well formed and holds no line with the head's id. */
  lemma TailWellFormed(cart: seq<CartItem>)
    requires cart != [] && WellFormed(cart)
    ensures WellFormed(cart[1..])
    ensures forall y :: y in cart[1..] ==> y.id != cart[0].id
  {
    forall y | y in cart[1..] ensures y.id != cart[0].id {
      var j :| 0 <= j < |cart[1..]| && cart[1..][j] == y;
      assert cart[j + 1] == y;
    }
  }

  /** A line put in front of a well-formed cart without its id keeps it well formed. */
  lemma ConsWellFormed(x: CartItem, rest: seq<CartItem>)
    requires WellFormed(rest) && 1 <= x.quantity <= 99
    requires forall y :: y in rest ==> y.id != x.id
    ensures WellFormed([x] + rest)
  {
    var r := [x] + rest;
    forall i, j | 0 <= i < j < |r| ensures r[i].id != r[j].id {
      assert r[j] == rest[j - 1] && rest[j - 1] in rest;
      if i > 0 {
        assert r[i] == rest[i - 1];
      }
    }
  }

  lemma {:induction false} RemoveKeepsWellFormed(cart: seq<CartItem>, id: Option<string>)
    ensures WellFormed(cart) ==> WellFormed(Removed(cart, id))
  {
    if cart != [] && WellFormed(cart) {
      RemoveKeepsWellFormed(cart[1..], id);
      TailWellFormed(cart);
      if cart[0].id != id {
        ConsWellFormed(cart[0], Removed(cart[1..], id));
      }
    }
  }

  lemma UpdateKeepsWellFormed(cart: seq<CartItem>, id: Option<string>, quantity: int)
    requires WellFormed(cart)
    ensures WellFormed(Updated(cart, id, quantity))
  {
  }

  /** `updateQuantity` never removes a line: a quantity of 0 or less becomes 1. */
  lemma UpdateNeverRemoves(cart: seq<CartItem>, id: Option<string>, quantity: int)
    requires quantity <= 0
    ensures |Updated(cart, id, quantity)| == |cart|
    ensures forall i :: 0 <= i < |cart| && cart[i].id == id ==> Updated(cart, id, quantity)[i].quantity == 1
  {
  }

  /** The totals of an empty cart are 0. */
  lemma EmptyTotals()
    ensures TotalItems([]) == 0 && TotalPrice([]) == 0
  {
  }

  /** Both totals are sums over the lines: they add up over concatenation. */
  lemma {:induction false} TotalsConcat(a: seq<CartItem>, b: seq<CartItem>)
    ensures TotalItems(a + b) == TotalItems(a) + TotalItems(b)
    ensures TotalPrice(a + b) == TotalPrice(a) + TotalPrice(b)
    decreases |b|
  {
    if b == [] {
      assert a + b == a;
    } else {
      var b' := b[..|b| - 1];
      TotalsConcat(a, b');
      assert (a + b)[..|a + b| - 1] == a + b';
    }
  }

  /** The totals of one line. */
  lemma TotalsSingle(x: CartItem)
    ensures TotalItems([x]) == x.quantity && TotalPrice([x]) == x.price * x.quantity
  {
    assert [x][..0] == [];
  }

  /** Replacing one line changes the totals by the difference of that line alone. */
  lemma TotalsReplace(cart: seq<CartItem>, k: nat, x: CartItem)
    requires k < |cart|
    ensures TotalItems(cart[k := x]) == TotalItems(cart) - cart[k].quantity + x.quantity
    ensures TotalPrice(cart[k := x]) == TotalPrice(cart) - cart[k].price * cart[k].quantity + x.price * x.quantity
  {
    var pre, post := cart[..k], cart[k + 1..];
    assert cart == pre + [cart[k]] + post;
    assert cart[k := x] == pre + [x] + post;
    TotalsConcat(pre + [cart[k]], post);
    TotalsConcat(pre, [cart[k]]);
    TotalsConcat(pre + [x], post);
    TotalsConcat(pre, [x]);
    TotalsSingle(cart[k]);
    TotalsSingle(x);
  }

  /** Adding a product raises the item count by one, except for a line already at 99. */
  lemma AddRaisesTotalItems(cart: seq<CartItem>, item: NewItem)
    requires WellFormed(cart)
    ensures TotalItems(Added(cart, item)) ==
      TotalItems(cart) + (if exists i :: 0 <= i < |cart| && cart[i].id == item.id && cart[i].quantity == 99 then 0 else 1)
  {
    if HasId(cart, item.id) {
      var k :| 0 <= k < |cart| && cart[k].id == item.id;
      AddExisting(cart, item, k);
      TotalsReplace(cart, k, cart[k].(quantity := Min(99, cart[k].quantity + 1)));
    } else {
      TotalsConcat(cart, [CartItem(item.id, item.uid, item.name, item.price, item.image, 1)]);
      TotalsSingle(CartItem(item.id, item.uid, item.name, item.price, item.image, 1));
    }
  }

  /** In a well-formed cart the item count is between the number of lines and 99 times it. */
  lemma {:induction false} TotalItemsBounds(cart: seq<CartItem>)
    requires WellFormed(cart)
    ensures |cart| <= TotalItems(cart) <= 99 * |cart|
  {
    if cart != [] {
      var init := cart[..|cart| - 1];
      assert WellFormed(init) by {
        forall i | 0 <= i < |init| ensures init[i] == cart[i] { }
      }
      TotalItemsBounds(init);
    }
  }
}

/**
 * The add-to-cart button: the line it hands to the cart, as written, and with
 * the `id` the cart keys on. Its one caller with props, the fragrance list,
 * passes the product's document id as `id`, a prop the button never reads;
 * the product page passes no props at all. So `uid` is `undefined` as well.
 */
module AddToCartButton {
  import opened Wrappers
  import opened Cart

  /** `{ uid, name, price, image }`: no `id`, so the cart sees `undefined` for every product. */
  function ButtonItem(uid: Option<string>, name: string, price: int, image: string): (r: NewItem)
    ensures r.id.None? && r.uid == uid
  {
    NewItem(None, uid, name, price, image)
  }

  /** As written, a second product, whatever it is, is merged into the first product's line. */
  lemma DistinctProductsMerged(u1: Option<string>, u2: Option<string>, n1: string, n2: string, p1: int, p2: int, i1: string, i2: string)
    ensures var cart := Added(Added([], ButtonItem(u1, n1, p1, i1)), ButtonItem(u2, n2, p2, i2));
      |cart| == 1 && cart[0].uid == u1 && cart[0].name == n1 && cart[0].quantity == 2
  {
    var first := Added([], ButtonItem(u1, n1, p1, i1));
    assert first == [CartItem(None, u1, n1, p1, i1, 1)];
    assert first[0].id == None;
    assert HasId(first, None);
  }

  /** The line with the product's document id, the `id` its caller passes, as both `id` and `uid`. */
  function ButtonItemCorrected(id: string, name: string, price: int, image: string): (r: NewItem)
    ensures r.id == Some(id) && r.uid == Some(id)
  {
    NewItem(Some(id), Some(id), name, price, image)
  }

  /** With the id given, each product gets its own line and adding it again only raises its quantity. */
  lemma CorrectedButtonKeepsProductsApart(cart: seq<CartItem>, u: string, n: string, p: int, i: string)
    requires WellFormed(cart)
    ensures var r := Added(cart, ButtonItemCorrected(u, n, p, i));
      WellFormed(r)
      && (forall k :: 0 <= k < |cart| && cart[k].id != Some(u) ==> r[k] == cart[k])
      && HasId(r, Some(u))
      && (!HasId(cart, Some(u)) ==> |r| == |cart| + 1 && r[|cart|].name == n && r[|cart|].quantity == 1)
  {
    var item := ButtonItemCorrected(u, n, p, i);
    AddKeepsWellFormed(cart, item);
    if !HasId(cart, item.id) {
      AddNew(cart, item);
      assert Added(cart, item)[|cart|].id == Some(u);
    } else {
      var k :| 0 <= k < |cart| && cart[k].id == item.id;
      assert Added(cart, item)[k].id == Some(u);
    }
  }

  /** Two different products added through the corrected button end up on two lines. */
  lemma CorrectedDistinctProductsApart(u1: string, u2: string, n1: string, n2: string, p1: int, p2: int, i1: string, i2: string)
    requires u1 != u2
    ensures var cart := Added(Added([], ButtonItemCorrected(u1, n1, p1, i1)), ButtonItemCorrected(u2, n2, p2, i2));
      |cart| == 2 && cart[0].uid == Some(u1) && cart[1].uid == Some(u2)
      && cart[0].quantity == 1 && cart[1].quantity == 1
  {
    var first := Added([], ButtonItemCorrected(u1, n1, p1, i1));
    assert first == [CartItem(Some(u1), Some(u1), n1, p1, i1, 1)];
    assert !HasId(first, Some(u2));
  }
}
