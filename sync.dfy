/**
 * The browser's request log meets the server's cart table. Each logged
 * request is handled by the POST or DELETE /cart route, one at a time and in
 * the order sent; the lemmas compare the client's local amount of a product
 * with the quantity the server then holds for it.
 */
module Sync {
  import opened JsValues
  import opened Http
  import opened Server
  import opened CartMirror

  /** What the carts table becomes when one logged request reaches its route. */
  function Deliver(t: Carts, r: Request, verify: JsString -> Option<UserId>): (d: Carts)
    ensures !Authenticate(Some(r.authorization), verify).Authorized? ==> d == t
    ensures r.DeleteRequest? ==> d.nextId == t.nextId
    ensures t.nextId <= d.nextId <= t.nextId + 1
  {
    match Authenticate(Some(r.authorization), verify)
    case Authorized(uid) =>
      (match r
       case PostRequest(pid, q, _) => Upsert(t.rows, t.nextId, uid, Some(pid), Some(q))
       case DeleteRequest(pid, _) => Carts(Without(t.rows, uid, pid), t.nextId))
    case _ => t
  }

  /** The requests of a log handled in order, oldest first. */
  function DeliverAll(t: Carts, log: seq<Request>, verify: JsString -> Option<UserId>): (d: Carts)
    ensures t.nextId <= d.nextId <= t.nextId + |log|
    decreases |log|
  {
    if log == [] then t else DeliverAll(Deliver(t, log[0], verify), log[1..], verify)
  }

  /** The quantity column of the caller's row for a product, as the route's SELECT finds it; None without a row. */
  function ServerQuantity(rows: seq<CartRow>, uid: UserId, pid: ProductId): (r: Option<Option<int>>)
    ensures r.None? <==> forall k :: 0 <= k < |rows| ==> !Matches(rows[k], uid, Some(pid))
    ensures r.Some? ==> exists k :: 0 <= k < |rows| && Matches(rows[k], uid, Some(pid)) && rows[k].quantity == r.value
  {
    match FindLine(rows, uid, Some(pid))
    case Some(i) => Some(rows[i].quantity)
    case None => None
  }

  /** Handling a log is handling its first part and then the rest, from the table the first part left. */
  lemma {:induction false} DeliverAllAppend(t: Carts, a: seq<Request>, b: seq<Request>, verify: JsString -> Option<UserId>)
    ensures DeliverAll(t, a + b, verify) == DeliverAll(DeliverAll(t, a, verify), b, verify)
    decreases |a|
  {
    if a == [] {
      assert a + b == b;
    } else {
      assert (a + b)[0] == a[0] && (a + b)[1..] == a[1..] + b;
      DeliverAllAppend(Deliver(t, a[0], verify), a[1..], b, verify);
    }
  }

  /** A request carrying the Bearer header of the token signed for uid. */
  predicate SentBy(r: Request, jwt: Jwt, uid: UserId)
  {
    r.authorization == BearerHeader(jwt.sign(uid))
  }

  // ---------------------------------------------------------------------------
  // The SELECT on tables that differ only in a way that does not affect it

  /** Two tables whose rows match the same WHERE clause at the same places give the same SELECT result. */
  lemma FindLineSameMatches(a: seq<CartRow>, b: seq<CartRow>, uid: UserId, pid: Option<ProductId>)
    requires |a| == |b|
    requires forall k :: 0 <= k < |a| ==> (Matches(a[k], uid, pid) <==> Matches(b[k], uid, pid))
    ensures FindLine(a, uid, pid) == FindLine(b, uid, pid)
  {
  }

  /** The SELECT on a table with one more row at the end finds the old answer, or that row, or nothing. */
  lemma FindLineAppend(a: seq<CartRow>, x: CartRow, uid: UserId, pid: Option<ProductId>)
    ensures FindLine(a + [x], uid, pid) ==
      if FindLine(a, uid, pid).Some? then FindLine(a, uid, pid)
      else if Matches(x, uid, pid) then Some(|a|) else None
  {
    var b := a + [x];
    assert forall k :: 0 <= k < |a| ==> b[k] == a[k];
    var fa, fb := FindLine(a, uid, pid), FindLine(b, uid, pid);
    if fa.Some? {
      assert Matches(b[fa.value], uid, pid);
    } else if Matches(x, uid, pid) {
      assert Matches(b[|a|], uid, pid);
    }
  }

  /** The server's answer to a POST for a product: the row it finds for the same caller and product is the one it wrote. */
  lemma UpsertFindLine(rows: seq<CartRow>, nextId: int, uid: UserId, pid: ProductId, q: Option<int>, u: UserId, p: ProductId)
    requires IdsValid(CartIds(rows), nextId)
    ensures var s := Upsert(rows, nextId, uid, Some(pid), q).rows;
      if u == uid && p == pid then
        (if FindLine(rows, uid, Some(pid)).Some? then
           FindLine(s, u, Some(p)) == FindLine(rows, uid, Some(pid)) && s[FindLine(s, u, Some(p)).value].quantity == q
         else FindLine(s, u, Some(p)) == Some(|rows|) && s[|rows|].quantity == InsertQuantity(q))
      else ServerQuantity(s, u, p) == ServerQuantity(rows, u, p)
  {
    var s := Upsert(rows, nextId, uid, Some(pid), q).rows;
    var x := CartRow(nextId, uid, Some(pid), InsertQuantity(q));
    match FindLine(rows, uid, Some(pid))
    case Some(i) =>
      UpsertReplaces(rows, nextId, uid, Some(pid), q);
      assert forall k :: 0 <= k < |rows| ==> s[k].userId == rows[k].userId && s[k].productId == rows[k].productId;
      FindLineSameMatches(s, rows, u, Some(p));
      if FindLine(rows, u, Some(p)).Some? {
        var j := FindLine(rows, u, Some(p)).value;
        if j != i {
          assert s[j] == rows[j];
        }
      }
    case None =>
      assert s == rows + [x];
      FindLineAppend(rows, x, u, Some(p));
      if FindLine(rows, u, Some(p)).Some? {
        var j := FindLine(rows, u, Some(p)).value;
        assert s[j] == rows[j];
      }
  }

  // ---------------------------------------------------------------------------
  // One request

  /** A POST leaves the server holding exactly the quantity it carried (or `quantity || 1` on a new row), and every other (user, product) quantity alone. */
  lemma PostSetsServerQuantity(t: Carts, uid: UserId, pid: ProductId, q: int, jwt: Jwt, u: UserId, p: ProductId)
    requires JwtSound(jwt) && IdsValid(CartIds(t.rows), t.nextId)
    ensures var s := Deliver(t, PostRequest(pid, q, BearerHeader(jwt.sign(uid))), jwt.verify);
      && (ServerQuantity(s.rows, uid, pid) ==
            if ServerQuantity(t.rows, uid, pid).Some? then Some(Some(q)) else Some(InsertQuantity(Some(q))))
      && (u != uid || p != pid ==> ServerQuantity(s.rows, u, p) == ServerQuantity(t.rows, u, p))
  {
    AuthenticateSignedToken(jwt, uid);
    UpsertFindLine(t.rows, t.nextId, uid, pid, Some(q), uid, pid);
    UpsertFindLine(t.rows, t.nextId, uid, pid, Some(q), u, p);
  }

  /** A DELETE leaves the caller with no row for that product. */
  lemma DeleteClearsServerQuantity(t: Carts, uid: UserId, pid: ProductId, jwt: Jwt)
    requires JwtSound(jwt)
    ensures ServerQuantity(Deliver(t, DeleteRequest(pid, BearerHeader(jwt.sign(uid))), jwt.verify).rows, uid, pid) == None
  {
    AuthenticateSignedToken(jwt, uid);
  }

  /** The DELETE for one (user, product) never changes what the SELECT finds for another. */
  lemma {:induction false} WithoutKeepsServerQuantity(rows: seq<CartRow>, uid: UserId, pid: ProductId, u: UserId, p: ProductId)
    requires u != uid || p != pid
    ensures ServerQuantity(Without(rows, uid, pid), u, p) == ServerQuantity(rows, u, p)
  {
    if rows != [] {
      var w := Without(rows[1..], uid, pid);
      WithoutKeepsServerQuantity(rows[1..], uid, pid, u, p);
      assert rows == [rows[0]] + rows[1..];
      ServerQuantityCons(rows[0], rows[1..], u, p);
      if Matches(rows[0], uid, Some(pid)) {
        assert Without(rows, uid, pid) == [] + w == w;
        assert !Matches(rows[0], u, Some(p));
      } else {
        assert Without(rows, uid, pid) == [rows[0]] + w;
        ServerQuantityCons(rows[0], w, u, p);
      }
    }
  }

  /** The SELECT on a table with one more row in front finds that row if it matches, and otherwise what it found before. */
  lemma ServerQuantityCons(x: CartRow, w: seq<CartRow>, u: UserId, p: ProductId)
    ensures ServerQuantity([x] + w, u, p) == if Matches(x, u, Some(p)) then Some(x.quantity) else ServerQuantity(w, u, p)
  {
    assert ([x] + w)[0] == x && ([x] + w)[1..] == w;
  }

  /** A DELETE leaves every other (user, product) quantity as it was. */
  lemma DeleteKeepsOtherQuantities(t: Carts, uid: UserId, pid: ProductId, jwt: Jwt, u: UserId, p: ProductId)
    requires JwtSound(jwt)
    requires u != uid || p != pid
    ensures ServerQuantity(Deliver(t, DeleteRequest(pid, BearerHeader(jwt.sign(uid))), jwt.verify).rows, u, p)
      == ServerQuantity(t.rows, u, p)
  {
    AuthenticateSignedToken(jwt, uid);
    WithoutKeepsServerQuantity(t.rows, uid, pid, u, p);
  }

  // ---------------------------------------------------------------------------
  // The client and the server side by side

  /**
   * The drift: when the server holds the client's amount for a product already
   * in the cart, addToCart raises the local amount by q but the POST makes the
   * server hold q, so the two agree afterwards only if the old amount was 0.
   */
  lemma AddToCartDrift(t: Carts, cart: seq<Item>, p: Product, q: int, uid: UserId, jwt: Jwt)
    requires JwtSound(jwt) && IdsValid(CartIds(t.rows), t.nextId)
    requires UniqueIds(cart) && InCart(cart, p.id)
    requires ServerQuantity(t.rows, uid, p.id) == Some(Some(QuantityOf(cart, p.id)))
    ensures var c := AddedCart(cart, p, q);
      var s := Deliver(t, PostRequest(p.id, q, BearerHeader(jwt.sign(uid))), jwt.verify);
      && QuantityOf(c, p.id) == QuantityOf(cart, p.id) + q
      && ServerQuantity(s.rows, uid, p.id) == Some(Some(q))
      && (ServerQuantity(s.rows, uid, p.id) == Some(Some(QuantityOf(c, p.id))) <==> QuantityOf(cart, p.id) == 0)
  {
    AddRaisesOnlyThatQuantity(cart, p, q, p.id);
    PostSetsServerQuantity(t, uid, p.id, q, jwt, uid, p.id);
  }

  /** A product new to both sides: the client keeps q, the server `q || 1`; they agree unless q is 0. */
  lemma NewLineAgreesUnlessZero(t: Carts, cart: seq<Item>, p: Product, q: int, uid: UserId, jwt: Jwt)
    requires JwtSound(jwt) && IdsValid(CartIds(t.rows), t.nextId)
    requires UniqueIds(cart) && !InCart(cart, p.id)
    requires ServerQuantity(t.rows, uid, p.id) == None
    ensures var c := AddedCart(cart, p, q);
      var s := Deliver(t, PostRequest(p.id, q, BearerHeader(jwt.sign(uid))), jwt.verify);
      && QuantityOf(c, p.id) == q
      && ServerQuantity(s.rows, uid, p.id) == Some(InsertQuantity(Some(q)))
      && (ServerQuantity(s.rows, uid, p.id) == Some(Some(QuantityOf(c, p.id))) <==> q != 0)
  {
    AddRaisesOnlyThatQuantity(cart, p, q, p.id);
    QuantityOfAbsent(cart, p.id);
    PostSetsServerQuantity(t, uid, p.id, q, jwt, uid, p.id);
  }

  /** updateQuantity sends the exact amount it sets, so the server agrees with the client, except on a new row with amount 0. */
  lemma UpdateQuantityStaysInSync(t: Carts, cart: seq<Item>, id: ProductId, q: int, uid: UserId, jwt: Jwt)
    requires JwtSound(jwt) && IdsValid(CartIds(t.rows), t.nextId)
    requires UniqueIds(cart) && InCart(cart, id)
    ensures var c := WithQuantity(cart, id, q);
      var s := Deliver(t, PostRequest(id, q, BearerHeader(jwt.sign(uid))), jwt.verify);
      && QuantityOf(c, id) == q
      && (ServerQuantity(s.rows, uid, id) == Some(Some(QuantityOf(c, id))) <==> ServerQuantity(t.rows, uid, id).Some? || q != 0)
  {
    WithQuantitySets(cart, id, q, id);
    PostSetsServerQuantity(t, uid, id, q, jwt, uid, id);
  }

  /** removeFromCart and its DELETE leave neither side with the product. */
  lemma RemoveStaysInSync(t: Carts, cart: seq<Item>, id: ProductId, uid: UserId, jwt: Jwt)
    requires JwtSound(jwt)
    ensures var s := Deliver(t, DeleteRequest(id, BearerHeader(jwt.sign(uid))), jwt.verify);
      && QuantityOf(Removed(cart, id), id) == 0
      && ServerQuantity(s.rows, uid, id) == None
  {
    QuantityOfAbsent(Removed(cart, id), id);
    DeleteClearsServerQuantity(t, uid, id, jwt);
  }

  lemma {:induction false} RowsOfNone(rows: seq<CartRow>, uid: UserId)
    requires forall x :: x in rows ==> x.userId != uid
    ensures RowsOf(rows, uid) == []
  {
    if rows != [] {
      assert forall x :: x in rows[1..] ==> x in rows;
      RowsOfNone(rows[1..], uid);
    }
  }

  lemma DeletesForSplit(items: seq<Item>, token: JsString)
    requires items != []
    ensures DeletesFor(items, token) == [DeleteRequest(items[0].id, BearerHeader(token))] + DeletesFor(items[1..], token)
  {
  }

  /**
   * clearCart empties the server too, provided every row the server holds
   * for the user is for a product in the cart being cleared.
   */
  lemma {:induction false} ClearCartEmptiesServer(t: Carts, cart: seq<Item>, uid: UserId, jwt: Jwt)
    requires JwtSound(jwt)
    requires forall x :: x in t.rows && x.userId == uid ==> x.productId.Some? && InCart(cart, x.productId.value)
    ensures RowsOf(DeliverAll(t, DeletesFor(cart, jwt.sign(uid)), jwt.verify).rows, uid) == []
    decreases |cart|
  {
    var log := DeletesFor(cart, jwt.sign(uid));
    if cart == [] {
      assert log == [];
      RowsOfNone(t.rows, uid);
    } else {
      DeletesForSplit(cart, jwt.sign(uid));
      AuthenticateSignedToken(jwt, uid);
      var t1 := Deliver(t, log[0], jwt.verify);
      assert t1 == Carts(Without(t.rows, uid, cart[0].id), t.nextId);
      forall x | x in t1.rows && x.userId == uid
        ensures x.productId.Some? && InCart(cart[1..], x.productId.value)
      {
        var i :| 0 <= i < |cart| && cart[i].id == x.productId.value;
        assert cart[1..][i - 1] == cart[i];
      }
      ClearCartEmptiesServer(t1, cart[1..], uid, jwt);
      assert DeliverAll(t, log, jwt.verify) == DeliverAll(t1, log[1..], jwt.verify);
    }
  }

  lemma DeliverKeepsIdsValid(t: Carts, r: Request, verify: JsString -> Option<UserId>)
    requires IdsValid(CartIds(t.rows), t.nextId)
    ensures var s := Deliver(t, r, verify); IdsValid(CartIds(s.rows), s.nextId)
  {
    match Authenticate(Some(r.authorization), verify)
    case Authorized(uid) =>
      match r {
        case PostRequest(pid, q, _) => UpsertKeepsIdsValid(t.rows, t.nextId, uid, Some(pid), Some(q));
        case DeleteRequest(pid, _) => WithoutKeepsIdsValid(t.rows, t.nextId, uid, pid);
      }
    case _ =>
  }

  /** A user's log of requests leaves every other user's rows exactly as they were. */
  lemma {:induction false} DeliverAllOnlyTouchesSender(t: Carts, log: seq<Request>, jwt: Jwt, uid: UserId, other: UserId)
    requires JwtSound(jwt) && IdsValid(CartIds(t.rows), t.nextId)
    requires forall k :: 0 <= k < |log| ==> SentBy(log[k], jwt, uid)
    requires other != uid
    ensures RowsOf(DeliverAll(t, log, jwt.verify).rows, other) == RowsOf(t.rows, other)
    decreases |log|
  {
    if log != [] {
      AuthenticateSignedToken(jwt, uid);
      var t1 := Deliver(t, log[0], jwt.verify);
      match log[0] {
        case PostRequest(pid, q, _) => UpsertOnlyTouchesCaller(t.rows, t.nextId, uid, Some(pid), Some(q), other);
        case DeleteRequest(pid, _) => WithoutOnlyTouchesCaller(t.rows, uid, pid, other);
      }
      DeliverKeepsIdsValid(t, log[0], jwt.verify);
      assert forall k :: 0 <= k < |log[1..]| ==> log[1..][k] == log[k + 1];
      DeliverAllOnlyTouchesSender(t1, log[1..], jwt, uid, other);
    }
  }

  /** Handing one logged request to the matching route of the store does what Deliver says. */
  method Serve(db: Store, r: Request, jwt: Jwt) returns (resp: Response)
    requires db.Valid()
    modifies db
    ensures db.Valid()
    ensures Carts(db.carts, db.nextCartId) == Deliver(Carts(old(db.carts), old(db.nextCartId)), r, jwt.verify)
    ensures db.users == old(db.users)
  {
    match r
    case PostRequest(pid, q, h) => resp := db.PostCart(Some(h), Some(pid), Some(q), jwt);
    case DeleteRequest(pid, h) => resp := db.DeleteCart(Some(h), pid, jwt);
  }
}
