/**
 * The cart page: the quantity stepper's two handlers, the `totalAmount`
 * fold and the choice between the empty-cart branch and the list of lines.
 */
module CartPage {
  import opened JsValues
  import opened CartMirror

  /** A call the page makes on the cart context: `updateQuantity(id, quantity)`. */
  datatype Call = UpdateQuantity(id: ProductId, quantity: int)

  /** `handleDecrease`: acts only above 1, and then asks for one less. */
  function HandleDecrease(item: Item): (c: Option<Call>)
    ensures c.Some? <==> item.quantity > 1
    ensures c.Some? ==> c.value == UpdateQuantity(item.id, item.quantity - 1) && c.value.quantity >= 1
  {
    if item.quantity > 1 then Some(UpdateQuantity(item.id, item.quantity - 1)) else None
  }

  /** `handleIncrease`: always asks for one more. */
  function HandleIncrease(item: Item): (c: Call)
    ensures c.id == item.id && c.quantity == item.quantity + 1
  {
    UpdateQuantity(item.id, item.quantity + 1)
  }

  /** A click on the minus or plus button of the k-th line shown. */
  datatype Press = Decrease(k: nat) | Increase(k: nat)

  /** The cart after the context has carried out one click's call. */
  function Click(cart: seq<Item>, p: Press): seq<Item>
  {
    if p.k >= |cart| then cart
    else match p
      case Decrease(k) =>
        (match HandleDecrease(cart[k])
         case None => cart
         case Some(c) => WithQuantity(cart, c.id, c.quantity))
      case Increase(k) =>
        var c := HandleIncrease(cart[k]);
        WithQuantity(cart, c.id, c.quantity)
  }

  function ClickAll(cart: seq<Item>, presses: seq<Press>): seq<Item>
    decreases |presses|
  {
    if presses == [] then cart else ClickAll(Click(cart, presses[0]), presses[1..])
  }

  ghost predicate AllAtLeastOne(cart: seq<Item>)
  {
    forall i :: 0 <= i < |cart| ==> cart[i].quantity >= 1
  }

  /** Minus on a line at quantity 1 or less leaves the whole cart as it was. */
  lemma DecreaseAtOneDoesNothing(cart: seq<Item>, k: nat)
    requires k < |cart| && cart[k].quantity <= 1
    ensures Click(cart, Decrease(k)) == cart
  {
  }

  /** From quantities of at least 1, no sequence of stepper clicks drives any line below 1. */
  lemma {:induction false} SteppingKeepsQuantitiesPositive(cart: seq<Item>, presses: seq<Press>)
    requires AllAtLeastOne(cart)
    ensures AllAtLeastOne(ClickAll(cart, presses))
    ensures |ClickAll(cart, presses)| == |cart|
    decreases |presses|
  {
    if presses != [] {
      var next := Click(cart, presses[0]);
      assert AllAtLeastOne(next) && |next| == |cart|;
      SteppingKeepsQuantitiesPositive(next, presses[1..]);
    }
  }

  /** `Number(item.price) * item.quantity`, with integer prices. */
  function Subtotal(item: Item): (r: int)
    ensures item.price >= 0 && item.quantity >= 0 ==> r >= 0
    ensures item.quantity == 0 ==> r == 0
  {
    item.price * item.quantity
  }

  /** `cart.reduce((sum, item) => sum + Number(item.price) * item.quantity, 0)`, a left fold. */
  function TotalAmount(cart: seq<Item>): (r: int)
    ensures cart == [] ==> r == 0
    ensures (forall i :: 0 <= i < |cart| ==> cart[i].quantity == 0) ==> r == 0
  {
    if cart == [] then 0 else TotalAmount(cart[..|cart| - 1]) + Subtotal(cart[|cart| - 1])
  }

  lemma {:induction false} TotalAppend(a: seq<Item>, b: seq<Item>)
    ensures TotalAmount(a + b) == TotalAmount(a) + TotalAmount(b)
  {
    if b == [] {
      assert a + b == a;
    } else {
      var c := a + b;
      assert c[..|c| - 1] == a + b[..|b| - 1];
      assert c[|c| - 1] == b[|b| - 1];
      TotalAppend(a, b[..|b| - 1]);
    }
  }

  /** Replacing one line changes the total by the difference of the two subtotals. */
  lemma TotalUpdate(cart: seq<Item>, i: nat, x: Item)
    requires i < |cart|
    ensures TotalAmount(cart[i := x]) == TotalAmount(cart) - Subtotal(cart[i]) + Subtotal(x)
  {
    assert cart == cart[..i] + [cart[i]] + cart[i + 1..];
    assert cart[i := x] == cart[..i] + [x] + cart[i + 1..];
    TotalAppend(cart[..i] + [cart[i]], cart[i + 1..]);
    TotalAppend(cart[..i], [cart[i]]);
    TotalAppend(cart[..i] + [x], cart[i + 1..]);
    TotalAppend(cart[..i], [x]);
    assert TotalAmount([x]) == Subtotal(x) by { assert [x][..0] == []; }
    assert TotalAmount([cart[i]]) == Subtotal(cart[i]) by { assert [cart[i]][..0] == []; }
  }

  /** With non-negative prices and quantities the total is never negative. */
  lemma {:induction false} TotalNonNegative(cart: seq<Item>)
    requires forall i :: 0 <= i < |cart| ==> cart[i].price >= 0 && cart[i].quantity >= 0
    ensures TotalAmount(cart) >= 0
  {
    if cart != [] {
      TotalNonNegative(cart[..|cart| - 1]);
    }
  }

  /** Raising a line's quantity by d raises its subtotal by d times its price. */
  lemma SubtotalStep(item: Item, d: int)
    ensures Subtotal(item.(quantity := item.quantity + d)) == Subtotal(item) + item.price * d
  {
    assert item.price * (item.quantity + d) == item.price * item.quantity + item.price * d;
  }

  /** Raising one line's quantity by d raises the total by d times that line's price. */
  lemma TotalStep(cart: seq<Item>, k: nat, d: int)
    requires k < |cart|
    ensures TotalAmount(cart[k := cart[k].(quantity := cart[k].quantity + d)]) == TotalAmount(cart) + cart[k].price * d
  {
    var x := cart[k].(quantity := cart[k].quantity + d);
    TotalUpdate(cart, k, x);
    SubtotalStep(cart[k], d);
  }

  /** Plus on a line changes that line alone, by one. */
  lemma IncreaseChangesOneLine(cart: seq<Item>, k: nat)
    requires UniqueIds(cart) && k < |cart|
    ensures Click(cart, Increase(k)) == cart[k := cart[k].(quantity := cart[k].quantity + 1)]
  {
    WithQuantityAt(cart, k, cart[k].quantity + 1);
  }

  /** Plus on a line raises the total by exactly that line's price. */
  lemma IncreaseRaisesTotalByPrice(cart: seq<Item>, k: nat)
    requires UniqueIds(cart) && k < |cart|
    ensures TotalAmount(Click(cart, Increase(k))) == TotalAmount(cart) + cart[k].price
  {
    IncreaseChangesOneLine(cart, k);
    TotalStep(cart, k, 1);
  }

  /** addToCart of a product already in the cart raises the total by the quantity times that line's price snapshot. */
  lemma AddExistingRaisesTotal(cart: seq<Item>, p: Product, quantity: int, i: nat)
    requires UniqueIds(cart) && i < |cart| && cart[i].id == p.id
    ensures TotalAmount(AddedCart(cart, p, quantity)) == TotalAmount(cart) + cart[i].price * quantity
  {
    AddedCartAt(cart, p, quantity, i);
    TotalStep(cart, i, quantity);
  }

  /** addToCart of a new product raises the total by the quantity times the product's price. */
  lemma AddNewRaisesTotal(cart: seq<Item>, p: Product, quantity: int)
    requires !InCart(cart, p.id)
    ensures TotalAmount(AddedCart(cart, p, quantity)) == TotalAmount(cart) + PriceOf(p) * quantity
  {
    var n := NewItem(p, quantity);
    assert AddedCart(cart, p, quantity) == cart + [n];
    TotalAppend(cart, [n]);
    assert TotalAmount([n]) == Subtotal(n) by {
      assert [n][..0] == [];
    }
  }

  /** One line of the list. */
  datatype Line = Line(id: ProductId, name: JsString, price: int, quantity: int, subtotal: int)

  /** What the page shows: the empty-cart message, or one line per item and the total. */
  datatype View = EmptyCart | Lines(lines: seq<Line>, total: int)

  function Render(cart: seq<Item>): (v: View)
    ensures v == EmptyCart <==> cart == []
    ensures v.Lines? ==> |v.lines| == |cart| && v.total == TotalAmount(cart)
    ensures v.Lines? ==> forall i :: 0 <= i < |cart| ==>
      v.lines[i] == Line(cart[i].id, cart[i].name, cart[i].price, cart[i].quantity, Subtotal(cart[i]))
  {
    if |cart| == 0 then EmptyCart
    else Lines(seq(|cart|, i requires 0 <= i < |cart| =>
           Line(cart[i].id, cart[i].name, cart[i].price, cart[i].quantity, Subtotal(cart[i]))),
         TotalAmount(cart))
  }
}
