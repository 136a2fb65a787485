/**
 * The Express backend: the `users` and `carts` SQLite tables and the route
 * handlers that read and write them. The tables are rows in table (rowid)
 * order with AUTOINCREMENT counters; bcrypt and jsonwebtoken are oracles
 * passed in as values.
 */
module Server {
  import opened JsValues
  import opened Http
  import PasswordRule

  type UserId = int
  type ProductId = int

  /** A bcrypt hash string, as kept in the `password` column. */
  type Digest = JsString

  /**
   * bcrypt as the routes call it: `hash(pw)` is what `bcrypt.hash(pw, 10)`
   * resolves to (salt fixed by the oracle), `compare` what `bcrypt.compare` resolves to.
   */
  datatype Bcrypt = Bcrypt(hash: JsString -> Digest, compare: (JsString, Digest) -> bool)

  /**
   * jsonwebtoken under the server's secret, at one instant: `sign(u)` is the
   * token for `{ userId: u }`, `verify(t)` the userId of a token that checks out.
   */
  datatype Jwt = Jwt(sign: UserId -> JsString, verify: JsString -> Option<UserId>)

  /** bcrypt accepts a password against its own hash. */
  ghost predicate BcryptSound(b: Bcrypt)
  {
    forall p :: b.compare(p, b.hash(p))
  }

  /** A signed token verifies to the id it was signed for, and (being base64url) holds no space; the empty token ("jwt must be provided") verifies to nothing. */
  ghost predicate JwtSound(j: Jwt)
  {
    && j.verify([]) == None
    && forall u :: j.verify(j.sign(u)) == Some(u) && Space !in j.sign(u)
  }

  /** A row of `users (id, name, email UNIQUE, password)`. */
  datatype UserRow = UserRow(id: UserId, name: JsString, email: JsString, password: Digest)

  /** A row of `carts (id, userId, productId, quantity)`; NULL columns are None. */
  datatype CartRow = CartRow(id: int, userId: UserId, productId: Option<ProductId>, quantity: Option<int>)

  /** The cart table together with its AUTOINCREMENT counter. */
  datatype Carts = Carts(rows: seq<CartRow>, nextId: int)

  datatype Body =
    | Message(text: string)
    | Session(message: string, token: JsString, name: JsString, email: JsString)
    | Rows(rows: seq<CartRow>)

  /** What a handler answers; NoReply when its promise rejects and nothing is sent. */
  datatype Response = Response(status: int, body: Body) | NoReply

  const NoTokenProvided := Response(401, Message("No token provided"))
  const InvalidToken := Response(403, Message("Invalid token"))
  const FieldsRequired := Response(400, Message("All fields are required"))
  const WeakPassword := Response(400, Message("Password must be 8–12 characters long and contain at least 1 uppercase letter"))
  const EmailExists := Response(400, Message("Email already exists"))
  const InvalidCredentials := Response(400, Message("Invalid email or password"))
  const CartUpdated := Response(200, Message("Cart updated"))
  const AddedToCart := Response(200, Message("Added to cart"))
  const ItemRemoved := Response(200, Message("Item removed"))

  // ---------------------------------------------------------------------------
  // Authentication middleware

  datatype Auth = NoToken | BadToken | Authorized(userId: UserId)

  /** `authenticate`: a falsy header is 401; a token that does not verify (or is missing after the split) is 403. */
  function Authenticate(authorization: Option<JsString>, verify: JsString -> Option<UserId>): (a: Auth)
    ensures a == NoToken <==> !Truthy(authorization)
    ensures a.Authorized? ==>
      Truthy(authorization) && SecondField(authorization.value).Some?
      && verify(SecondField(authorization.value).value) == Some(a.userId)
    ensures a == BadToken ==>
      SecondField(authorization.value).None? || verify(SecondField(authorization.value).value).None?
  {
    if !Truthy(authorization) then NoToken
    else match SecondField(authorization.value)
      case None => BadToken
      case Some(token) =>
        match verify(token)
        case None => BadToken
        case Some(u) => Authorized(u)
  }

  /** The header the browser builds from a token the server signed authenticates as that user. */
  lemma AuthenticateSignedToken(j: Jwt, u: UserId)
    requires JwtSound(j)
    ensures Authenticate(Some(BearerHeader(j.sign(u))), j.verify) == Authorized(u)
  {
    BearerRoundTrip(j.sign(u));
  }

  /** A browser holding the empty token sends "Bearer ", which the middleware refuses with 403. */
  lemma EmptyTokenRefused(j: Jwt)
    requires JwtSound(j)
    ensures Authenticate(Some(BearerHeader([])), j.verify) == BadToken
  {
    BearerRoundTrip([]);
  }

  // ---------------------------------------------------------------------------
  // Table invariants

  /** AUTOINCREMENT ids: positive, strictly increasing in table order, below the next id. */
  ghost predicate IdsValid(ids: seq<int>, nextId: int)
  {
    && 1 <= nextId
    && (forall k :: 0 <= k < |ids| ==> 1 <= ids[k] < nextId)
    && forall i, j :: 0 <= i < j < |ids| ==> ids[i] < ids[j]
  }

  function UserIds(users: seq<UserRow>): seq<int>
  {
    seq(|users|, k requires 0 <= k < |users| => users[k].id)
  }

  function CartIds(rows: seq<CartRow>): seq<int>
  {
    seq(|rows|, k requires 0 <= k < |rows| => rows[k].id)
  }

  /** The UNIQUE constraint on `users.email` (byte-wise, case-sensitive). */
  ghost predicate EmailsUnique(users: seq<UserRow>)
  {
    forall i, j :: 0 <= i < j < |users| ==> users[i].email != users[j].email
  }

  /** SQL `=` on a nullable column: NULL equals nothing. */
  predicate SqlEq(a: Option<ProductId>, b: Option<ProductId>)
  {
    a.Some? && b.Some? && a.value == b.value
  }

  /** The WHERE clause `userId = ? AND productId = ?`. */
  predicate Matches(r: CartRow, uid: UserId, pid: Option<ProductId>)
  {
    r.userId == uid && SqlEq(r.productId, pid)
  }

  /** At most one row per (userId, productId): what sequential POST /cart requests keep. */
  ghost predicate OneLinePerProduct(rows: seq<CartRow>)
  {
    forall i, j :: 0 <= i < j < |rows| ==> !Matches(rows[j], rows[i].userId, rows[i].productId)
  }

  // ---------------------------------------------------------------------------
  // Queries and statements on the tables

  /** Whether a row already holds this email, so that an INSERT would violate UNIQUE. */
  predicate EmailTaken(users: seq<UserRow>, email: JsString)
    ensures EmailTaken(users, email) <==> exists u :: u in users && u.email == email
  {
    exists k :: 0 <= k < |users| && users[k].email == email
  }

  /** `SELECT * FROM users WHERE email = ?` through `db.get`: the first such row. */
  function UserByEmail(users: seq<UserRow>, email: Option<JsString>): (r: Option<UserRow>)
    ensures r.Some? ==> r.value in users && email == Some(r.value.email)
    ensures r.None? ==> email.None? || forall u :: u in users ==> u.email != email.value
  {
    if email.None? || users == [] then None
    else if users[0].email == email.value then Some(users[0])
    else UserByEmail(users[1..], email)
  }

  /** `SELECT * FROM carts WHERE userId = ? AND productId = ?` through `db.get`: the index of the first match. */
  function FindLine(rows: seq<CartRow>, uid: UserId, pid: Option<ProductId>): (r: Option<nat>)
    ensures r.Some? ==>
      r.value < |rows| && Matches(rows[r.value], uid, pid)
      && forall k :: 0 <= k < r.value ==> !Matches(rows[k], uid, pid)
    ensures r.None? ==> forall k :: 0 <= k < |rows| ==> !Matches(rows[k], uid, pid)
  {
    if rows == [] then None
    else if Matches(rows[0], uid, pid) then Some(0)
    else match FindLine(rows[1..], uid, pid)
      case None => None
      case Some(k) => Some(k + 1)
  }

  /** `UPDATE carts SET quantity = ? WHERE id = ?`. */
  function SetQuantityWhereId(rows: seq<CartRow>, id: int, q: Option<int>): (r: seq<CartRow>)
    ensures |r| == |rows|
    ensures forall k :: 0 <= k < |rows| ==> r[k] == if rows[k].id == id then rows[k].(quantity := q) else rows[k]
  {
    if rows == [] then []
    else [if rows[0].id == id then rows[0].(quantity := q) else rows[0]] + SetQuantityWhereId(rows[1..], id, q)
  }

  /** `quantity || 1`: the quantity an INSERT stores, with a falsy one (absent, null, 0) read as 1. */
  function InsertQuantity(q: Option<int>): (r: Option<int>)
    ensures r.Some? && r.value != 0
    ensures q.Some? && q.value != 0 ==> r == q
    ensures q.None? || q == Some(0) ==> r == Some(1)
  {
    if q.None? || q.value == 0 then Some(1) else q
  }

  /** POST /cart for an authenticated user: the SELECT, then the UPDATE of the row found or an INSERT. */
  function Upsert(rows: seq<CartRow>, nextId: int, uid: UserId, pid: Option<ProductId>, q: Option<int>): (r: Carts)
    ensures FindLine(rows, uid, pid).Some? ==> |r.rows| == |rows| && r.nextId == nextId
    ensures FindLine(rows, uid, pid).None? ==> |r.rows| == |rows| + 1 && r.nextId == nextId + 1 && r.rows[..|rows|] == rows
  {
    match FindLine(rows, uid, pid)
    case Some(i) => Carts(SetQuantityWhereId(rows, rows[i].id, q), nextId)
    case None => Carts(rows + [CartRow(nextId, uid, pid, InsertQuantity(q))], nextId + 1)
  }

  /** `SELECT * FROM carts WHERE userId = ?` through `db.all`: the user's rows, in table order. */
  function RowsOf(rows: seq<CartRow>, uid: UserId): (r: seq<CartRow>)
    ensures forall x :: x in r <==> x in rows && x.userId == uid
  {
    if rows == [] then []
    else (if rows[0].userId == uid then [rows[0]] else []) + RowsOf(rows[1..], uid)
  }

  /** `DELETE FROM carts WHERE userId = ? AND productId = ?`: every other row stays, in order. */
  function Without(rows: seq<CartRow>, uid: UserId, pid: ProductId): (r: seq<CartRow>)
    ensures forall x :: x in r <==> x in rows && !Matches(x, uid, Some(pid))
  {
    if rows == [] then []
    else (if Matches(rows[0], uid, Some(pid)) then [] else [rows[0]]) + Without(rows[1..], uid, pid)
  }

  // ---------------------------------------------------------------------------
  // Lemmas about the table functions

  /** With unique ids, the UPDATE by id changes exactly the one row it selected. */
  lemma {:induction false} SetQuantityOnlyThatRow(rows: seq<CartRow>, i: nat, q: Option<int>)
    requires i < |rows|
    requires forall k :: 0 <= k < |rows| && k != i ==> rows[k].id != rows[i].id
    ensures SetQuantityWhereId(rows, rows[i].id, q) == rows[i := rows[i].(quantity := q)]
  {
    var r := SetQuantityWhereId(rows, rows[i].id, q);
    if i == 0 {
      SetQuantityUnmatched(rows[1..], rows[0].id, q);
    } else {
      SetQuantityOnlyThatRow(rows[1..], i - 1, q);
      assert rows[0].id != rows[i].id;
    }
  }

  lemma {:induction false} SetQuantityUnmatched(rows: seq<CartRow>, id: int, q: Option<int>)
    requires forall k :: 0 <= k < |rows| ==> rows[k].id != id
    ensures SetQuantityWhereId(rows, id, q) == rows
  {
    if rows != [] {
      SetQuantityUnmatched(rows[1..], id, q);
    }
  }

  lemma IdsValidDistinct(rows: seq<CartRow>, nextId: int, i: nat)
    requires IdsValid(CartIds(rows), nextId) && i < |rows|
    ensures forall k :: 0 <= k < |rows| && k != i ==> rows[k].id != rows[i].id
  {
    forall k | 0 <= k < |rows| && k != i
      ensures rows[k].id != rows[i].id
    {
      if k < i { assert CartIds(rows)[k] < CartIds(rows)[i]; }
      else { assert CartIds(rows)[i] < CartIds(rows)[k]; }
    }
  }

  /** POST /cart on an existing line REPLACES its quantity with the one supplied, and adds no row. */
  lemma UpsertReplaces(rows: seq<CartRow>, nextId: int, uid: UserId, pid: Option<ProductId>, q: Option<int>)
    requires IdsValid(CartIds(rows), nextId)
    requires FindLine(rows, uid, pid).Some?
    ensures var i := FindLine(rows, uid, pid).value;
      Upsert(rows, nextId, uid, pid, q) == Carts(rows[i := rows[i].(quantity := q)], nextId)
  {
    var i := FindLine(rows, uid, pid).value;
    IdsValidDistinct(rows, nextId, i);
    SetQuantityOnlyThatRow(rows, i, q);
  }

  /** POST /cart with no matching line appends exactly one row, numbered by the counter, with `quantity || 1`. */
  lemma UpsertInserts(rows: seq<CartRow>, nextId: int, uid: UserId, pid: Option<ProductId>, q: Option<int>)
    requires forall k :: 0 <= k < |rows| ==> !Matches(rows[k], uid, pid)
    ensures Upsert(rows, nextId, uid, pid, q) == Carts(rows + [CartRow(nextId, uid, pid, InsertQuantity(q))], nextId + 1)
  {
  }

  lemma UpsertKeepsIdsValid(rows: seq<CartRow>, nextId: int, uid: UserId, pid: Option<ProductId>, q: Option<int>)
    requires IdsValid(CartIds(rows), nextId)
    ensures var t := Upsert(rows, nextId, uid, pid, q); IdsValid(CartIds(t.rows), t.nextId)
  {
    var t := Upsert(rows, nextId, uid, pid, q);
    if FindLine(rows, uid, pid).Some? {
      UpsertReplaces(rows, nextId, uid, pid, q);
      assert CartIds(t.rows) == CartIds(rows);
    } else {
      assert forall k :: 0 <= k < |rows| ==> CartIds(t.rows)[k] == CartIds(rows)[k];
    }
  }

  /** Sequential POST /cart requests never create a second row for the same (userId, productId). */
  lemma UpsertKeepsOneLinePerProduct(rows: seq<CartRow>, nextId: int, uid: UserId, pid: Option<ProductId>, q: Option<int>)
    requires IdsValid(CartIds(rows), nextId)
    requires OneLinePerProduct(rows)
    ensures OneLinePerProduct(Upsert(rows, nextId, uid, pid, q).rows)
  {
    var t := Upsert(rows, nextId, uid, pid, q);
    if FindLine(rows, uid, pid).Some? {
      UpsertReplaces(rows, nextId, uid, pid, q);
      var i := FindLine(rows, uid, pid).value;
      assert forall k :: 0 <= k < |rows| ==> t.rows[k].userId == rows[k].userId && t.rows[k].productId == rows[k].productId;
    } else {
      assert forall k :: 0 <= k < |rows| ==> t.rows[k] == rows[k];
    }
  }

  /** A POST that follows an earlier one for the same product overwrites the quantity: 2 then 3 leaves 3, not 5. */
  lemma SecondPostOverwrites(rows: seq<CartRow>, nextId: int, uid: UserId, pid: ProductId, q1: Option<int>, q2: Option<int>)
    requires IdsValid(CartIds(rows), nextId)
    ensures var t1 := Upsert(rows, nextId, uid, Some(pid), q1);
      var t2 := Upsert(t1.rows, t1.nextId, uid, Some(pid), q2);
      && FindLine(t1.rows, uid, Some(pid)).Some?
      && var i := FindLine(t1.rows, uid, Some(pid)).value;
         t2 == Carts(t1.rows[i := t1.rows[i].(quantity := q2)], t1.nextId)
  {
    var t1 := Upsert(rows, nextId, uid, Some(pid), q1);
    UpsertKeepsIdsValid(rows, nextId, uid, Some(pid), q1);
    if FindLine(rows, uid, Some(pid)).Some? {
      UpsertReplaces(rows, nextId, uid, Some(pid), q1);
      var i := FindLine(rows, uid, Some(pid)).value;
      assert Matches(t1.rows[i], uid, Some(pid));
    } else {
      assert Matches(t1.rows[|rows|], uid, Some(pid));
    }
    UpsertReplaces(t1.rows, t1.nextId, uid, Some(pid), q2);
  }

  lemma {:induction false} RowsOfAppend(a: seq<CartRow>, b: seq<CartRow>, uid: UserId)
    ensures RowsOf(a + b, uid) == RowsOf(a, uid) + RowsOf(b, uid)
  {
    if a != [] {
      assert (a + b)[0] == a[0] && (a + b)[1..] == a[1..] + b;
      RowsOfAppend(a[1..], b, uid);
      var head := if a[0].userId == uid then [a[0]] else [];
      assert RowsOf(a + b, uid) == head + RowsOf(a[1..] + b, uid);
    } else {
      assert a + b == b;
    }
  }

  /** On one row, the SELECT returns it once when it is the user's and nothing otherwise. */
  lemma RowsOfSingle(x: CartRow, uid: UserId)
    ensures RowsOf([x], uid) == if x.userId == uid then [x] else []
  {
    assert [x][1..] == [];
  }

  lemma {:induction false} RowsOfSetQuantity(rows: seq<CartRow>, id: int, q: Option<int>, uid: UserId)
    requires forall k :: 0 <= k < |rows| && rows[k].id == id ==> rows[k].userId != uid
    ensures RowsOf(SetQuantityWhereId(rows, id, q), uid) == RowsOf(rows, uid)
  {
    if rows != [] {
      RowsOfSetQuantity(rows[1..], id, q, uid);
    }
  }

  /** POST /cart leaves every other user's rows exactly as they were. */
  lemma UpsertOnlyTouchesCaller(rows: seq<CartRow>, nextId: int, uid: UserId, pid: Option<ProductId>, q: Option<int>, other: UserId)
    requires IdsValid(CartIds(rows), nextId)
    requires other != uid
    ensures RowsOf(Upsert(rows, nextId, uid, pid, q).rows, other) == RowsOf(rows, other)
  {
    match FindLine(rows, uid, pid)
    case Some(i) =>
      IdsValidDistinct(rows, nextId, i);
      RowsOfSetQuantity(rows, rows[i].id, q, other);
    case None =>
      var x := CartRow(nextId, uid, pid, InsertQuantity(q));
      RowsOfAppend(rows, [x], other);
      assert RowsOf([x], other) == [];
  }

  /** DELETE leaves every other user's rows exactly as they were. */
  lemma {:induction false} WithoutOnlyTouchesCaller(rows: seq<CartRow>, uid: UserId, pid: ProductId, other: UserId)
    requires other != uid
    ensures RowsOf(Without(rows, uid, pid), other) == RowsOf(rows, other)
  {
    if rows != [] {
      WithoutOnlyTouchesCaller(rows[1..], uid, pid, other);
      var head := if Matches(rows[0], uid, Some(pid)) then [] else [rows[0]];
      RowsOfAppend(head, Without(rows[1..], uid, pid), other);
    }
  }

  /** For the caller, DELETE keeps every row of another product, in order. */
  lemma {:induction false} WithoutKeepsOtherProducts(rows: seq<CartRow>, uid: UserId, pid: ProductId)
    ensures forall x :: x in RowsOf(Without(rows, uid, pid), uid) <==> x in RowsOf(rows, uid) && !SqlEq(x.productId, Some(pid))
  {
  }

  /** Deleting twice is deleting once; deleting a product that is not there changes nothing. */
  lemma {:induction false} WithoutIdempotent(rows: seq<CartRow>, uid: UserId, pid: ProductId)
    ensures Without(Without(rows, uid, pid), uid, pid) == Without(rows, uid, pid)
    ensures (forall k :: 0 <= k < |rows| ==> !Matches(rows[k], uid, Some(pid))) ==> Without(rows, uid, pid) == rows
  {
    if rows != [] {
      WithoutIdempotent(rows[1..], uid, pid);
      var w := Without(rows[1..], uid, pid);
      if !Matches(rows[0], uid, Some(pid)) {
        var r := [rows[0]] + w;
        assert Without(rows, uid, pid) == r;
        assert r[0] == rows[0] && r[1..] == w;
        assert Without(r, uid, pid) == [rows[0]] + Without(w, uid, pid);
        assert (forall k :: 0 <= k < |rows| ==> !Matches(rows[k], uid, Some(pid))) ==>
          forall k :: 0 <= k < |rows| - 1 ==> !Matches(rows[1..][k], uid, Some(pid));
      } else {
        assert Without(rows, uid, pid) == w;
      }
    }
  }

  lemma IdsValidCons(x: int, ids: seq<int>, nextId: int)
    requires IdsValid(ids, nextId) && 1 <= x < nextId
    requires forall k :: 0 <= k < |ids| ==> x < ids[k]
    ensures IdsValid([x] + ids, nextId)
  {
    var r := [x] + ids;
    assert forall k :: 1 <= k < |r| ==> r[k] == ids[k - 1];
  }

  lemma IdsValidTail(ids: seq<int>, nextId: int)
    requires IdsValid(ids, nextId) && ids != []
    ensures IdsValid(ids[1..], nextId)
    ensures forall k :: 1 <= k < |ids| ==> ids[0] < ids[k]
  {
    assert forall k :: 0 <= k < |ids| - 1 ==> ids[1..][k] == ids[k + 1];
  }

  lemma {:induction false} WithoutKeepsIdsValid(rows: seq<CartRow>, nextId: int, uid: UserId, pid: ProductId)
    requires IdsValid(CartIds(rows), nextId)
    ensures IdsValid(CartIds(Without(rows, uid, pid)), nextId)
  {
    if rows != [] {
      var rest := rows[1..];
      assert CartIds(rest) == CartIds(rows)[1..];
      IdsValidTail(CartIds(rows), nextId);
      WithoutKeepsIdsValid(rest, nextId, uid, pid);
      var w := Without(rest, uid, pid);
      if !Matches(rows[0], uid, Some(pid)) {
        assert Without(rows, uid, pid) == [rows[0]] + w;
        assert CartIds([rows[0]] + w) == [rows[0].id] + CartIds(w);
        forall k | 0 <= k < |w| ensures rows[0].id < CartIds(w)[k] {
          assert w[k] in rest;
          var m :| 0 <= m < |rest| && rest[m] == w[k];
          assert CartIds(rows)[m + 1] == w[k].id;
        }
        assert 1 <= CartIds(rows)[0] < nextId;
        IdsValidCons(rows[0].id, CartIds(w), nextId);
      } else {
        assert Without(rows, uid, pid) == w;
      }
    }
  }

  lemma OneLinePerProductTail(rows: seq<CartRow>)
    requires OneLinePerProduct(rows) && rows != []
    ensures OneLinePerProduct(rows[1..])
    ensures forall x :: x in rows[1..] ==> !Matches(x, rows[0].userId, rows[0].productId)
  {
    var rest := rows[1..];
    forall i, j | 0 <= i < j < |rest| ensures !Matches(rest[j], rest[i].userId, rest[i].productId) {
      assert rest[i] == rows[i + 1] && rest[j] == rows[j + 1];
    }
    forall x | x in rest ensures !Matches(x, rows[0].userId, rows[0].productId) {
      var m :| 0 <= m < |rest| && rest[m] == x;
      assert rows[m + 1] == x;
    }
  }

  lemma OneLinePerProductCons(h: CartRow, w: seq<CartRow>)
    requires OneLinePerProduct(w)
    requires forall x :: x in w ==> !Matches(x, h.userId, h.productId)
    ensures OneLinePerProduct([h] + w)
  {
    var r := [h] + w;
    forall i, j | 0 <= i < j < |r| ensures !Matches(r[j], r[i].userId, r[i].productId) {
      assert r[j] == w[j - 1];
      if 0 < i { assert r[i] == w[i - 1]; }
    }
  }

  lemma {:induction false} WithoutKeepsOneLinePerProduct(rows: seq<CartRow>, uid: UserId, pid: ProductId)
    requires OneLinePerProduct(rows)
    ensures OneLinePerProduct(Without(rows, uid, pid))
  {
    if rows != [] {
      var rest := rows[1..];
      OneLinePerProductTail(rows);
      WithoutKeepsOneLinePerProduct(rest, uid, pid);
      var w := Without(rest, uid, pid);
      if Matches(rows[0], uid, Some(pid)) {
        assert Without(rows, uid, pid) == w;
      } else {
        assert Without(rows, uid, pid) == [rows[0]] + w;
        OneLinePerProductCons(rows[0], w);
      }
    }
  }

  /** A user who just signed up is the row that login's lookup finds. */
  lemma {:induction false} NewUserIsFound(users: seq<UserRow>, row: UserRow)
    requires !EmailTaken(users, row.email)
    ensures UserByEmail(users + [row], Some(row.email)) == Some(row)
  {
    if users != [] {
      assert (users + [row])[1..] == users[1..] + [row];
      assert users[0].email != row.email;
      NewUserIsFound(users[1..], row);
    }
  }

  /** A row whose email is already taken cannot join the table without breaking UNIQUE, so the INSERT is refused. */
  lemma EmailTakenRefuses(users: seq<UserRow>, row: UserRow)
    requires EmailTaken(users, row.email)
    ensures !EmailsUnique(users + [row])
  {
    var k :| 0 <= k < |users| && users[k].email == row.email;
    var u := users + [row];
    assert u[k] == users[k] && u[|users|] == row;
  }

  lemma SignupKeepsUsersValid(users: seq<UserRow>, nextId: int, row: UserRow)
    requires IdsValid(UserIds(users), nextId) && EmailsUnique(users)
    requires row.id == nextId && !EmailTaken(users, row.email)
    ensures IdsValid(UserIds(users + [row]), nextId + 1) && EmailsUnique(users + [row])
  {
    var u := users + [row];
    assert forall k :: 0 <= k < |users| ==> UserIds(u)[k] == UserIds(users)[k];
    assert forall k :: 0 <= k < |users| ==> u[k] == users[k];
  }

  // ---------------------------------------------------------------------------
  // The database and its routes

  class Store {
    var users: seq<UserRow>
    var nextUserId: int
    var carts: seq<CartRow>
    var nextCartId: int

    /** The schema's guarantees: AUTOINCREMENT ids on both tables and UNIQUE emails. */
    ghost predicate Valid()
      reads this
    {
      IdsValid(UserIds(users), nextUserId) && EmailsUnique(users) && IdsValid(CartIds(carts), nextCartId)
    }

    /** `CREATE TABLE IF NOT EXISTS` on a fresh database. */
    constructor ()
      ensures Valid()
      ensures users == [] && carts == [] && nextUserId == 1 && nextCartId == 1
    {
      users, carts := [], [];
      nextUserId, nextCartId := 1, 1;
    }

    /** POST /signup. */
    method Signup(name: Option<JsString>, email: Option<JsString>, password: Option<JsString>, crypt: Bcrypt, jwt: Jwt)
      returns (resp: Response)
      requires Valid()
      modifies this
      ensures Valid()
      ensures carts == old(carts) && nextCartId == old(nextCartId)
      ensures !Truthy(name) || !Truthy(email) || !Truthy(password) ==>
        resp == FieldsRequired && users == old(users) && nextUserId == old(nextUserId)
      ensures Truthy(name) && Truthy(email) && Truthy(password) ==>
        if !PasswordRule.ValidatePassword(password.value) then
          resp == WeakPassword && users == old(users) && nextUserId == old(nextUserId)
        else if EmailTaken(old(users), email.value) then
          resp == EmailExists && users == old(users) && nextUserId == old(nextUserId)
        else
          && users == old(users) + [UserRow(old(nextUserId), name.value, email.value, crypt.hash(password.value))]
          && nextUserId == old(nextUserId) + 1
          && resp == Response(200, Session("Signup successful", jwt.sign(old(nextUserId)), name.value, email.value))
    {
      if !Truthy(name) || !Truthy(email) || !Truthy(password) {
        return FieldsRequired;
      }
      if !PasswordRule.ValidatePassword(password.value) {
        return WeakPassword;
      }
      var hashed := crypt.hash(password.value);
      if EmailTaken(users, email.value) {
        return EmailExists;
      }
      var row := UserRow(nextUserId, name.value, email.value, hashed);
      SignupKeepsUsersValid(users, nextUserId, row);
      users := users + [row];
      nextUserId := nextUserId + 1;
      resp := Response(200, Session("Signup successful", jwt.sign(row.id), name.value, email.value));
    }

    /** POST /login: an unknown email and a wrong password get the very same answer. */
    method Login(email: Option<JsString>, password: Option<JsString>, crypt: Bcrypt, jwt: Jwt) returns (resp: Response)
      ensures match UserByEmail(users, email)
        case None => resp == InvalidCredentials
        case Some(u) =>
          if password.None? then resp == NoReply
          else if !crypt.compare(password.value, u.password) then resp == InvalidCredentials
          else resp == Response(200, Session("Login successful", jwt.sign(u.id), u.name, u.email))
    {
      var found := UserByEmail(users, email);
      if found.None? {
        return InvalidCredentials;
      }
      var u := found.value;
      if password.None? {
        // bcrypt.compare rejects on an undefined password inside the async callback; nothing answers.
        return NoReply;
      }
      if !crypt.compare(password.value, u.password) {
        return InvalidCredentials;
      }
      resp := Response(200, Session("Login successful", jwt.sign(u.id), u.name, u.email));
    }

    /** POST /cart: SELECT the caller's line, then UPDATE its quantity or INSERT a new row. */
    method PostCart(authorization: Option<JsString>, productId: Option<ProductId>, quantity: Option<int>, jwt: Jwt)
      returns (resp: Response)
      requires Valid()
      modifies this
      ensures Valid()
      ensures users == old(users) && nextUserId == old(nextUserId)
      ensures OneLinePerProduct(old(carts)) ==> OneLinePerProduct(carts)
      ensures match Authenticate(authorization, jwt.verify)
        case NoToken => resp == NoTokenProvided && carts == old(carts) && nextCartId == old(nextCartId)
        case BadToken => resp == InvalidToken && carts == old(carts) && nextCartId == old(nextCartId)
        case Authorized(uid) =>
          && Carts(carts, nextCartId) == Upsert(old(carts), old(nextCartId), uid, productId, quantity)
          && resp == if FindLine(old(carts), uid, productId).Some? then CartUpdated else AddedToCart
    {
      match Authenticate(authorization, jwt.verify)
      case NoToken => resp := NoTokenProvided;
      case BadToken => resp := InvalidToken;
      case Authorized(uid) =>
        UpsertKeepsIdsValid(carts, nextCartId, uid, productId, quantity);
        if OneLinePerProduct(carts) {
          UpsertKeepsOneLinePerProduct(carts, nextCartId, uid, productId, quantity);
        }
        var row := FindLine(carts, uid, productId);
        if row.Some? {
          carts := SetQuantityWhereId(carts, carts[row.value].id, quantity);
          resp := CartUpdated;
        } else {
          carts := carts + [CartRow(nextCartId, uid, productId, InsertQuantity(quantity))];
          nextCartId := nextCartId + 1;
          resp := AddedToCart;
        }
    }

    /** GET /cart: exactly the caller's rows. */
    method GetCart(authorization: Option<JsString>, jwt: Jwt) returns (resp: Response)
      ensures match Authenticate(authorization, jwt.verify)
        case NoToken => resp == NoTokenProvided
        case BadToken => resp == InvalidToken
        case Authorized(uid) =>
          && resp.Response? && resp.status == 200 && resp.body.Rows?
          && resp.body.rows == RowsOf(carts, uid)
          && forall x :: x in resp.body.rows <==> x in carts && x.userId == uid
    {
      match Authenticate(authorization, jwt.verify)
      case NoToken => resp := NoTokenProvided;
      case BadToken => resp := InvalidToken;
      case Authorized(uid) => resp := Response(200, Rows(RowsOf(carts, uid)));
    }

    /** DELETE /cart/:productId: removes the caller's rows for that product; succeeds even when none matched. */
    method DeleteCart(authorization: Option<JsString>, productId: ProductId, jwt: Jwt) returns (resp: Response)
      requires Valid()
      modifies this
      ensures Valid()
      ensures users == old(users) && nextUserId == old(nextUserId) && nextCartId == old(nextCartId)
      ensures OneLinePerProduct(old(carts)) ==> OneLinePerProduct(carts)
      ensures match Authenticate(authorization, jwt.verify)
        case NoToken => resp == NoTokenProvided && carts == old(carts)
        case BadToken => resp == InvalidToken && carts == old(carts)
        case Authorized(uid) => resp == ItemRemoved && carts == Without(old(carts), uid, productId)
    {
      match Authenticate(authorization, jwt.verify)
      case NoToken => resp := NoTokenProvided;
      case BadToken => resp := InvalidToken;
      case Authorized(uid) =>
        WithoutKeepsIdsValid(carts, nextCartId, uid, productId);
        if OneLinePerProduct(carts) {
          WithoutKeepsOneLinePerProduct(carts, uid, productId);
        }
        carts := Without(carts, uid, productId);
        resp := ItemRemoved;
    }
  }

  /**
   * Signing up and then logging in with the same credentials succeeds, and the
   * token that login hands out authenticates as the new user.
   */
  method SignupThenLogin(db: Store, name: JsString, email: JsString, password: JsString, crypt: Bcrypt, jwt: Jwt)
    returns (signedUp: Response, loggedIn: Response)
    requires db.Valid() && BcryptSound(crypt) && JwtSound(jwt)
    requires name != [] && email != [] && PasswordRule.ValidatePassword(password)
    requires !EmailTaken(db.users, email)
    modifies db
    ensures signedUp == Response(200, Session("Signup successful", jwt.sign(old(db.nextUserId)), name, email))
    ensures loggedIn == Response(200, Session("Login successful", jwt.sign(old(db.nextUserId)), name, email))
    ensures Authenticate(Some(BearerHeader(loggedIn.body.token)), jwt.verify) == Authorized(old(db.nextUserId))
  {
    assert password != [];
    signedUp := db.Signup(Some(name), Some(email), Some(password), crypt, jwt);
    var row := UserRow(old(db.nextUserId), name, email, crypt.hash(password));
    NewUserIsFound(old(db.users), row);
    loggedIn := db.Login(Some(email), Some(password), crypt, jwt);
    AuthenticateSignedToken(jwt, row.id);
  }
}
