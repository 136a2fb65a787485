/**
 * The browser's cart context: a local copy of the cart, kept in localStorage,
 * changed by `addToCart`, `updateQuantity`, `removeFromCart` and `clearCart`,
 * each of which also sends a request to the server. The requests are kept as
 * a log, in the order they are sent; nothing reads their answers back.
 */
module CartMirror {
  import opened JsValues
  import opened Http
  import Session

  type ProductId = int

  /** A catalogue product as handed to `addToCart`; the price is None when `Number(price)` is not a number. */
  datatype Product = Product(id: ProductId, name: JsString, price: Option<int>)

  /** A cart line: the product's fields, its quantity, and the price snapshot taken when it was added. */
  datatype Item = Item(id: ProductId, name: JsString, quantity: int, price: int)

  /** A request the context sends, with the Authorization header it carries. */
  datatype Request =
    | PostRequest(productId: ProductId, quantity: int, authorization: JsString)
    | DeleteRequest(productId: ProductId, authorization: JsString)

  /** `Number(product.price) || 0`, with integer prices. */
  function PriceOf(p: Product): (r: int)
    ensures p.price.None? ==> r == 0
    ensures p.price.Some? ==> r == p.price.value
  {
    if p.price.Some? then p.price.value else 0
  }

  /** The default parameter `quantity = 1`. */
  function Requested(quantity: Option<int>): (r: int)
    ensures quantity.None? ==> r == 1
    ensures quantity.Some? ==> r == quantity.value
  {
    if quantity.Some? then quantity.value else 1
  }

  /** `cart.find((item) => item.id === id)` found something. */
  predicate InCart(cart: seq<Item>, id: ProductId)
  {
    exists i :: 0 <= i < |cart| && cart[i].id == id
  }

  /** At most one line per product id. */
  ghost predicate UniqueIds(cart: seq<Item>)
  {
    forall i, j :: 0 <= i < j < |cart| ==> cart[i].id != cart[j].id
  }

  /** The sum of the quantities on the lines for id: the amount of that product in the cart. */
  function QuantityOf(cart: seq<Item>, id: ProductId): int
  {
    if cart == [] then 0
    else (if cart[0].id == id then cart[0].quantity else 0) + QuantityOf(cart[1..], id)
  }

  /** The new line `{ ...product, quantity, price: productPrice }`. */
  function NewItem(p: Product, quantity: int): (r: Item)
    ensures r.id == p.id && r.name == p.name && r.quantity == quantity
    ensures r.price == if p.price.Some? then p.price.value else 0
  {
    Item(p.id, p.name, quantity, PriceOf(p))
  }

  /** The cart `addToCart` computes: lines for the product gain `quantity`; a new product is appended. */
  function AddedCart(cart: seq<Item>, p: Product, quantity: int): (r: seq<Item>)
    ensures |r| == if InCart(cart, p.id) then |cart| else |cart| + 1
    ensures forall i :: 0 <= i < |cart| && cart[i].id != p.id ==> r[i] == cart[i]
    ensures forall i :: 0 <= i < |cart| && cart[i].id == p.id ==> r[i] == cart[i].(quantity := cart[i].quantity + quantity)
    ensures !InCart(cart, p.id) ==> r[|cart|] == NewItem(p, quantity)
  {
    if InCart(cart, p.id) then
      seq(|cart|, i requires 0 <= i < |cart| =>
        if cart[i].id == p.id then cart[i].(quantity := cart[i].quantity + quantity) else cart[i])
    else cart + [NewItem(p, quantity)]
  }

  /** The cart `updateQuantity` computes: lines for id get exactly `quantity`, the rest are untouched. */
  function WithQuantity(cart: seq<Item>, id: ProductId, quantity: int): (r: seq<Item>)
    ensures |r| == |cart|
    ensures forall i :: 0 <= i < |cart| ==> r[i] == if cart[i].id == id then cart[i].(quantity := quantity) else cart[i]
  {
    seq(|cart|, i requires 0 <= i < |cart| => if cart[i].id == id then cart[i].(quantity := quantity) else cart[i])
  }

  /** The cart `removeFromCart` computes: every line for id goes, the rest stay in order. */
  function Removed(cart: seq<Item>, id: ProductId): (r: seq<Item>)
    ensures forall x :: x in r <==> x in cart && x.id != id
    ensures !InCart(r, id)
    ensures |r| <= |cart|
  {
    if cart == [] then []
    else (if cart[0].id == id then [] else [cart[0]]) + Removed(cart[1..], id)
  }

  /** The `for (const item of cart)` loop of `clearCart`: one DELETE per line, in order. */
  function DeletesFor(items: seq<Item>, token: JsString): (r: seq<Request>)
    ensures |r| == |items|
    ensures forall i :: 0 <= i < |items| ==>
      r[i].DeleteRequest? && r[i].productId == items[i].id && r[i].authorization == BearerHeader(token)
  {
    seq(|items|, i requires 0 <= i < |items| => DeleteRequest(items[i].id, BearerHeader(token)))
  }

  // ---------------------------------------------------------------------------
  // Lemmas

  /** addToCart never makes a second line for a product. */
  lemma AddKeepsUniqueIds(cart: seq<Item>, p: Product, quantity: int)
    requires UniqueIds(cart)
    ensures UniqueIds(AddedCart(cart, p, quantity))
  {
    var r := AddedCart(cart, p, quantity);
    assert forall i :: 0 <= i < |cart| ==> r[i].id == cart[i].id;
  }

  /** With one line per product, QuantityOf is that line's quantity, or 0 without one. */
  lemma {:induction false} QuantityOfLine(cart: seq<Item>, id: ProductId, i: nat)
    requires UniqueIds(cart) && i < |cart| && cart[i].id == id
    ensures QuantityOf(cart, id) == cart[i].quantity
  {
    if i == 0 {
      QuantityOfAbsent(cart[1..], id);
    } else {
      QuantityOfLine(cart[1..], id, i - 1);
    }
  }

  lemma {:induction false} QuantityOfAbsent(cart: seq<Item>, id: ProductId)
    requires !InCart(cart, id)
    ensures QuantityOf(cart, id) == 0
  {
    if cart != [] {
      QuantityOfAbsent(cart[1..], id);
    }
  }

  lemma {:induction false} QuantityOfAppend(a: seq<Item>, b: seq<Item>, id: ProductId)
    ensures QuantityOf(a + b, id) == QuantityOf(a, id) + QuantityOf(b, id)
  {
    if a == [] {
      assert a + b == b;
    } else {
      assert (a + b)[0] == a[0] && (a + b)[1..] == a[1..] + b;
      QuantityOfAppend(a[1..], b, id);
    }
  }

  /** Changing one line for another id leaves the amount of id alone. */
  lemma {:induction false} QuantityOfUpdateOther(cart: seq<Item>, i: nat, x: Item, id: ProductId)
    requires i < |cart| && cart[i].id != id && x.id != id
    ensures QuantityOf(cart[i := x], id) == QuantityOf(cart, id)
  {
    if i > 0 {
      assert cart[i := x][1..] == cart[1..][i - 1 := x];
      QuantityOfUpdateOther(cart[1..], i - 1, x, id);
    }
  }

  /** addToCart raises the amount of the product by exactly `quantity` and no other amount. */
  lemma AddRaisesOnlyThatQuantity(cart: seq<Item>, p: Product, quantity: int, other: ProductId)
    requires UniqueIds(cart)
    ensures QuantityOf(AddedCart(cart, p, quantity), p.id) == QuantityOf(cart, p.id) + quantity
    ensures other != p.id ==> QuantityOf(AddedCart(cart, p, quantity), other) == QuantityOf(cart, other)
  {
    var r := AddedCart(cart, p, quantity);
    AddKeepsUniqueIds(cart, p, quantity);
    if InCart(cart, p.id) {
      var i :| 0 <= i < |cart| && cart[i].id == p.id;
      assert r == cart[i := cart[i].(quantity := cart[i].quantity + quantity)];
      QuantityOfLine(cart, p.id, i);
      QuantityOfLine(r, p.id, i);
      if other != p.id {
        QuantityOfUpdateOther(cart, i, r[i], other);
      }
    } else {
      QuantityOfAbsent(cart, p.id);
      QuantityOfAppend(cart, [NewItem(p, quantity)], p.id);
      QuantityOfAppend(cart, [NewItem(p, quantity)], other);
    }
  }

  /** updateQuantity on an id that is not in the cart changes nothing. */
  lemma WithQuantityAbsent(cart: seq<Item>, id: ProductId, quantity: int)
    requires !InCart(cart, id)
    ensures WithQuantity(cart, id, quantity) == cart
  {
  }

  /** With one line per product, updateQuantity on the k-th line's id replaces just that line. */
  lemma WithQuantityAt(cart: seq<Item>, k: nat, quantity: int)
    requires UniqueIds(cart) && k < |cart|
    ensures WithQuantity(cart, cart[k].id, quantity) == cart[k := cart[k].(quantity := quantity)]
  {
    assert forall i :: 0 <= i < |cart| && i != k ==> cart[i].id != cart[k].id;
  }

  /** With one line per product, addToCart of the k-th line's product replaces just that line. */
  lemma AddedCartAt(cart: seq<Item>, p: Product, quantity: int, k: nat)
    requires UniqueIds(cart) && k < |cart| && cart[k].id == p.id
    ensures AddedCart(cart, p, quantity) == cart[k := cart[k].(quantity := cart[k].quantity + quantity)]
  {
    assert forall i :: 0 <= i < |cart| && i != k ==> cart[i].id != cart[k].id;
  }

  /** updateQuantity keeps one line per product and sets that line's amount exactly. */
  lemma WithQuantitySets(cart: seq<Item>, id: ProductId, quantity: int, other: ProductId)
    requires UniqueIds(cart) && InCart(cart, id)
    ensures UniqueIds(WithQuantity(cart, id, quantity))
    ensures QuantityOf(WithQuantity(cart, id, quantity), id) == quantity
    ensures other != id ==> QuantityOf(WithQuantity(cart, id, quantity), other) == QuantityOf(cart, other)
  {
    var r := WithQuantity(cart, id, quantity);
    var i :| 0 <= i < |cart| && cart[i].id == id;
    assert r == cart[i := cart[i].(quantity := quantity)];
    QuantityOfLine(r, id, i);
    if other != id {
      QuantityOfUpdateOther(cart, i, r[i], other);
    }
  }

  /** removeFromCart keeps one line per product and every other product's amount. */
  lemma {:induction false} RemovedKeepsOthers(cart: seq<Item>, id: ProductId, other: ProductId)
    requires other != id
    ensures QuantityOf(Removed(cart, id), other) == QuantityOf(cart, other)
  {
    if cart != [] {
      RemovedKeepsOthers(cart[1..], id, other);
      var head := if cart[0].id == id then [] else [cart[0]];
      QuantityOfAppend(head, Removed(cart[1..], id), other);
    }
  }

  lemma UniqueIdsTail(cart: seq<Item>)
    requires UniqueIds(cart) && cart != []
    ensures UniqueIds(cart[1..])
    ensures forall x :: x in cart[1..] ==> x.id != cart[0].id
  {
    var rest := cart[1..];
    forall i, j | 0 <= i < j < |rest| ensures rest[i].id != rest[j].id {
      assert rest[i] == cart[i + 1] && rest[j] == cart[j + 1];
    }
    forall x | x in rest ensures x.id != cart[0].id {
      var m :| 0 <= m < |rest| && rest[m] == x;
      assert cart[m + 1] == x;
    }
  }

  lemma UniqueIdsCons(h: Item, w: seq<Item>)
    requires UniqueIds(w)
    requires forall x :: x in w ==> x.id != h.id
    ensures UniqueIds([h] + w)
  {
    var r := [h] + w;
    forall i, j | 0 <= i < j < |r| ensures r[i].id != r[j].id {
      assert r[j] == w[j - 1];
      if 0 < i { assert r[i] == w[i - 1]; }
    }
  }

  lemma {:induction false} RemovedKeepsUniqueIds(cart: seq<Item>, id: ProductId)
    requires UniqueIds(cart)
    ensures UniqueIds(Removed(cart, id))
  {
    if cart != [] {
      var rest := cart[1..];
      UniqueIdsTail(cart);
      RemovedKeepsUniqueIds(rest, id);
      var w := Removed(rest, id);
      if cart[0].id != id {
        assert Removed(cart, id) == [cart[0]] + w;
        UniqueIdsCons(cart[0], w);
      } else {
        assert Removed(cart, id) == w;
      }
    }
  }

  /** On one line, removeFromCart drops it when it is for id and keeps it otherwise. */
  lemma RemovedSingle(x: Item, id: ProductId)
    ensures Removed([x], id) == if x.id == id then [] else [x]
  {
    assert [x][1..] == [];
  }

  /** removeFromCart filters line by line: on a concatenation it is the concatenation of the two results, so the lines it keeps stay in their order. */
  lemma {:induction false} RemovedAppend(a: seq<Item>, b: seq<Item>, id: ProductId)
    ensures Removed(a + b, id) == Removed(a, id) + Removed(b, id)
  {
    if a != [] {
      assert (a + b)[0] == a[0] && (a + b)[1..] == a[1..] + b;
      RemovedAppend(a[1..], b, id);
      var head := if a[0].id == id then [] else [a[0]];
      assert Removed(a + b, id) == head + Removed(a[1..] + b, id);
    } else {
      assert a + b == b;
    }
  }

  /** Removing a product that has no line leaves the cart exactly as it was. */
  lemma {:induction false} RemovedAbsent(cart: seq<Item>, id: ProductId)
    requires !InCart(cart, id)
    ensures Removed(cart, id) == cart
  {
    if cart != [] {
      assert cart[0].id != id;
      assert !InCart(cart[1..], id) by {
        forall i | 0 <= i < |cart[1..]| ensures cart[1..][i].id != id {
          assert cart[1..][i] == cart[i + 1];
        }
      }
      RemovedAbsent(cart[1..], id);
      assert cart == [cart[0]] + cart[1..];
    }
  }

  // ---------------------------------------------------------------------------
  // The provider

  class CartProvider {
    /** The user context this provider reads `user` and `token` from. */
    const session: Session.UserProvider
    var cart: seq<Item>
    /** The localStorage key `cart`. */
    var stored: seq<Item>
    /** Every request sent so far, oldest first. */
    var sent: seq<Request>

    /** The effect on `[cart]` has run: storage holds the current cart. */
    ghost predicate Valid()
      reads this
    {
      stored == cart
    }

    /** Mount: the stored cart, or `[]` when there is none. */
    constructor (session: Session.UserProvider, saved: Option<seq<Item>>)
      ensures Valid() && this.session == session && sent == []
      ensures cart == if saved.Some? then saved.value else []
    {
      this.session := session;
      cart := if saved.Some? then saved.value else [];
      sent := [];
      new;
      stored := cart;
    }

    /**
     * `addToCart`: nothing without a user; otherwise the local cart gains the
     * quantity and ONE POST carries the requested quantity, not the new line total.
     */
    method AddToCart(p: Product, quantity: Option<int>)
      requires Valid()
      modifies this
      ensures Valid()
      ensures session.user.None? ==> cart == old(cart) && sent == old(sent)
      ensures session.user.Some? ==>
        && cart == AddedCart(old(cart), p, Requested(quantity))
        && sent == old(sent) + [PostRequest(p.id, Requested(quantity), BearerHeader(session.token))]
      ensures UniqueIds(old(cart)) ==> UniqueIds(cart)
    {
      if session.user.None? {
        return;
      }
      var q := Requested(quantity);
      if UniqueIds(cart) {
        AddKeepsUniqueIds(cart, p, q);
      }
      cart := AddedCart(cart, p, q);
      stored := cart;
      sent := sent + [PostRequest(p.id, q, BearerHeader(session.token))];
    }

    /** `updateQuantity`: the local change happens with or without a user; only a user's change is sent. */
    method UpdateQuantity(id: ProductId, quantity: int)
      requires Valid()
      modifies this
      ensures Valid()
      ensures cart == WithQuantity(old(cart), id, quantity)
      ensures session.user.None? ==> sent == old(sent)
      ensures session.user.Some? ==> sent == old(sent) + [PostRequest(id, quantity, BearerHeader(session.token))]
      ensures UniqueIds(old(cart)) ==> UniqueIds(cart)
    {
      cart := WithQuantity(cart, id, quantity);
      stored := cart;
      if session.user.None? {
        return;
      }
      sent := sent + [PostRequest(id, quantity, BearerHeader(session.token))];
    }

    /** `removeFromCart`: the local filter always; the DELETE only for a user. */
    method RemoveFromCart(id: ProductId)
      requires Valid()
      modifies this
      ensures Valid()
      ensures cart == Removed(old(cart), id)
      ensures session.user.None? ==> sent == old(sent)
      ensures session.user.Some? ==> sent == old(sent) + [DeleteRequest(id, BearerHeader(session.token))]
      ensures UniqueIds(old(cart)) ==> UniqueIds(cart)
    {
      if UniqueIds(cart) {
        RemovedKeepsUniqueIds(cart, id);
      }
      cart := Removed(cart, id);
      stored := cart;
      if session.user.None? {
        return;
      }
      sent := sent + [DeleteRequest(id, BearerHeader(session.token))];
    }

    /** `clearCart`: the cart is emptied, then a user's previous lines are deleted one request at a time. */
    method ClearCart()
      requires Valid()
      modifies this
      ensures Valid()
      ensures cart == []
      ensures session.user.None? ==> sent == old(sent)
      ensures session.user.Some? ==> sent == old(sent) + DeletesFor(old(cart), session.token)
    {
      var items := cart;
      cart := [];
      stored := [];
      if session.user.None? {
        return;
      }
      for i := 0 to |items|
        invariant cart == [] && stored == []
        invariant sent == old(sent) + DeletesFor(items[..i], session.token)
      {
        assert DeletesFor(items[..i + 1], session.token) == DeletesFor(items[..i], session.token) + [DeleteRequest(items[i].id, BearerHeader(session.token))];
        sent := sent + [DeleteRequest(items[i].id, BearerHeader(session.token))];
      }
      assert items[..|items|] == items;
    }
  }
}
