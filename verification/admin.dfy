/** The admin controller behind `/api/admin`: user, product and order
    management. The authentication and admin gate in front of these routes
    is not part of this model; every handler here assumes an admin caller.

    The handlers disagree on unknown identifiers: updateUser, updateProduct,
    updateOrderStatus and deleteOrder reply 404, while deleteUser and
    deleteProduct reply success whether or not the record existed. */
module Admin {
  import opened Models

  // ---------------------------------------------------------------------
  // Users
  // ---------------------------------------------------------------------

  /** A user as listed: every field except the password. */
  datatype PublicUser = PublicUser(
    id: Id,
    name: string,
    email: string,
    address: Option<string>,
    profileImage: Option<string>,
    isAdmin: bool)

  function Public(u: User): PublicUser
  {
    PublicUser(u.id, u.name, u.email, u.address, u.profileImage, u.isAdmin)
  }

  /** `User.find().select('-password')`: every user, in store order. */
  function GetAllUsers(db: Db): (r: Response<seq<PublicUser>>)
    ensures r.status == 200 && r.body.Json? && |r.body.value| == |db.users|
    ensures forall i :: 0 <= i < |db.users| ==>
      var (p, u) := (r.body.value[i], db.users[i]);
      p.id == u.id && p.name == u.name && p.email == u.email && p.address == u.address
      && p.profileImage == u.profileImage && p.isAdmin == u.isAdmin
  {
    Response(200, Json(seq(|db.users|, i requires 0 <= i < |db.users| => Public(db.users[i]))))
  }

  /** `findByIdAndDelete`, reported as success even for an unknown id. */
  function DeleteUser(db: Db, id: Id): (r: Outcome<PublicUser>)
    ensures r.response == Response(200, Message("User deleted"))
    ensures r.db.products == db.products && r.db.carts == db.carts && r.db.orders == db.orders
    ensures id !in UserIds(db.users) ==> r.db == db
    ensures id in UserIds(db.users) ==> r.db.users == RemoveAt(db.users, FindIndex(UserIds(db.users), id).value)
    ensures id in UserIds(db.users) ==> |r.db.users| == |db.users| - 1
    ensures UniqueIds(UserIds(db.users)) ==> id !in UserIds(r.db.users)
  {
    match FindIndex(UserIds(db.users), id)
    case None => Outcome(db, Response(200, Message("User deleted")))
    case Some(i) =>
      var rest := RemoveAt(db.users, i);
      assert UserIds(rest) == RemoveAt(UserIds(db.users), i);
      RemoveAtUnique(UserIds(db.users), i);
      Outcome(db.(users := rest), Response(200, Message("User deleted")))
  }

  /** `deleteMany({ isAdmin: false })`: the admins, in store order. */
  function Admins(users: seq<User>): (r: seq<User>)
    ensures |r| <= |users|
    ensures forall u :: u in r <==> u in users && u.isAdmin
  {
    if |users| == 0 then []
    else if users[0].isAdmin then [users[0]] + Admins(users[1..])
    else Admins(users[1..])
  }

  function DeleteAllUsers(db: Db): (r: Outcome<PublicUser>)
    ensures r.response == Response(200, Message("All non-admin users deleted"))
    ensures r.db.products == db.products && r.db.carts == db.carts && r.db.orders == db.orders
    ensures forall u :: u in r.db.users ==> u.isAdmin
    ensures forall u :: u in db.users && u.isAdmin ==> u in r.db.users
    ensures forall u :: u in r.db.users ==> u in db.users
  {
    Outcome(db.(users := Admins(db.users)), Response(200, Message("All non-admin users deleted")))
  }

  /** The admin's partial update of a user. */
  datatype UserPatch = UserPatch(name: Option<string>, email: Option<string>, isAdmin: Option<bool>)

  /** Name and email use the truthy fallback `x || old` (absent or "" keeps
      the stored value); the admin flag uses `x ?? old`, so an explicit
      false demotes. The reply is the saved user document. */
  function UpdateUser(db: Db, id: Id, patch: UserPatch): (r: Outcome<User>)
    ensures id !in UserIds(db.users) ==> r == Outcome(db, Response(404, Message("User not found")))
    ensures id in UserIds(db.users) ==>
      && r.response.status == 200 && r.response.body.Json?
      && (exists i :: 0 <= i < |db.users| && db.users[i].id == id &&
            var (u, u') := (db.users[i], r.response.body.value);
            && r.db == db.(users := db.users[i := u'])
            && u'.name == (if Truthy(patch.name) then patch.name.value else u.name)
            && u'.email == (if Truthy(patch.email) then patch.email.value else u.email)
            && u'.isAdmin == (if patch.isAdmin.Some? then patch.isAdmin.value else u.isAdmin)
            && u'.id == u.id && u'.password == u.password && u'.address == u.address
            && u'.profileImage == u.profileImage)
  {
    match FindIndex(UserIds(db.users), id)
    case None => Outcome(db, Response(404, Message("User not found")))
    case Some(i) =>
      var u := db.users[i];
      var u' := u.(name := OrString(patch.name, u.name),
                   email := OrString(patch.email, u.email),
                   isAdmin := Coalesce(patch.isAdmin, u.isAdmin));
      Outcome(db.(users := db.users[i := u']), Response(200, Json(u')))
  }

  /** The saved user is the one read back by its id, and the user listing
      shows it, without its password, at the same position. */
  lemma UpdateUserReadBack(db: Db, id: Id, patch: UserPatch)
    requires id in UserIds(db.users)
    ensures var r := UpdateUser(db, id, patch);
            var i := FindIndex(UserIds(db.users), id).value;
            && FindUser(r.db.users, id) == Some(r.response.body.value)
            && GetAllUsers(r.db).body.value[i] == Public(r.response.body.value)
  {
    var r := UpdateUser(db, id, patch);
    assert UserIds(r.db.users) == UserIds(db.users);
  }

  // ---------------------------------------------------------------------
  // Products
  // ---------------------------------------------------------------------

  /** The admin product list is unsorted: store order. */
  function GetAllProducts(db: Db): (r: Response<seq<Product>>)
    ensures r == Response(200, Json(db.products))
  {
    Response(200, Json(db.products))
  }

  function DeleteAllProducts(db: Db): (r: Outcome<Product>)
    ensures r.response == Response(200, Message("All products deleted"))
    ensures r.db.products == []
    ensures r.db.users == db.users && r.db.carts == db.carts && r.db.orders == db.orders
  {
    Outcome(db.(products := []), Response(200, Message("All products deleted")))
  }

  /** The admin's partial product update: the multipart body's text fields. */
  datatype ProductPatch = ProductPatch(name: Option<string>, price: Option<string>, description: Option<string>)

  const UpdateProductFailed := "Failed to update product"

  /** Truthy fallback on the name, price and description texts: an absent or
      empty field keeps the stored value, while any other text, "0"
      included, replaces it. A price text the schema cannot cast fails the
      save with a 500. The image is replaced only when the upload produced a
      non-empty path. */
  function UpdateProduct(db: Db, id: Id, patch: ProductPatch, file: Option<string>): (r: Outcome<Product>)
    ensures id !in ProductIds(db.products) ==> r == Outcome(db, Response(404, Message("Product not found")))
    ensures id in ProductIds(db.products) && Truthy(patch.price) && CastNumber(patch.price.value).None? ==>
      r == Outcome(db, Response(500, Message(UpdateProductFailed)))
    ensures id in ProductIds(db.products) && (!Truthy(patch.price) || CastNumber(patch.price.value).Some?) ==>
      && r.response.status == 200 && r.response.body.Json?
      && (exists i :: 0 <= i < |db.products| && db.products[i].id == id &&
            var (p, p') := (db.products[i], r.response.body.value);
            && r.db == db.(products := db.products[i := p'])
            && p'.name == (if Truthy(patch.name) then patch.name.value else p.name)
            && p'.price == (if Truthy(patch.price) then CastNumber(patch.price.value).value else p.price)
            && p'.description == (if Truthy(patch.description) then patch.description.value else p.description)
            && p'.image == (if Truthy(file) then file else p.image)
            && p'.id == p.id && p'.createdAt == p.createdAt)
  {
    match FindIndex(ProductIds(db.products), id)
    case None => Outcome(db, Response(404, Message("Product not found")))
    case Some(i) =>
      var p := db.products[i];
      var price := if Truthy(patch.price) then CastNumber(patch.price.value) else Some(p.price);
      if price.None? then Outcome(db, Response(500, Message(UpdateProductFailed)))
      else
        var p' := p.(name := OrString(patch.name, p.name),
                     price := price.value,
                     description := OrString(patch.description, p.description),
                     image := if Truthy(file) then file else p.image);
        Outcome(db.(products := db.products[i := p']), Response(200, Json(p')))
  }

  /** Admin create: reading the uploaded file's path throws when no file was
      sent, and a price text the schema cannot cast fails the save; both are
      reported as a 500. Otherwise the product is saved with that image and
      replied with status 200. */
  function CreateProduct(db: Db, name: string, price: string, description: string, file: Option<string>,
                         newId: Id, now: int): (r: Outcome<Product>)
    ensures file.None? || CastNumber(price).None? ==>
      r == Outcome(db, Response(500, Message("Failed to create product")))
    ensures file.Some? && CastNumber(price).Some? ==>
      var p := Product(newId, name, CastNumber(price).value, description, file, now);
      && r.response == Response(200, Json(p))
      && r.db == db.(products := db.products + [p])
  {
    if file.None? || CastNumber(price).None? then Outcome(db, Response(500, Message("Failed to create product")))
    else
      var p := Product(newId, name, CastNumber(price).value, description, file, now);
      Outcome(db.(products := db.products + [p]), Response(200, Json(p)))
  }

  // ---------------------------------------------------------------------
  // Orders
  // ---------------------------------------------------------------------

  /** The user fields the order listing populates (`'name email'`). */
  datatype UserSummary = UserSummary(id: Id, name: string, email: string)

  /** The product fields it populates (`'name price image description'`). */
  datatype ProductSummary = ProductSummary(id: Id, name: string, price: int, image: Option<string>, description: string)

  /** An order as the admin listing replies it; a dangling reference
      populates to null. */
  datatype AdminOrder = AdminOrder(order: Order, user: Option<UserSummary>, product: Option<ProductSummary>)

  function UserSummaryOf(u: User): UserSummary
  {
    UserSummary(u.id, u.name, u.email)
  }

  function ProductSummaryOf(p: Product): ProductSummary
  {
    ProductSummary(p.id, p.name, p.price, p.image, p.description)
  }

  function PopulateForAdmin(o: Order, db: Db): AdminOrder
  {
    AdminOrder(o,
               match FindUser(db.users, o.user) case None => None case Some(u) => Some(UserSummaryOf(u)),
               match FindProduct(db.products, o.product) case None => None case Some(p) => Some(ProductSummaryOf(p)))
  }

  /** Every order, in store order, with its customer's name and e-mail and
      its product's public fields, each taken from a stored record with the
      referenced id, or null when there is none. */
  function GetAllOrders(db: Db): (r: Response<seq<AdminOrder>>)
    ensures r.status == 200 && r.body.Json? && |r.body.value| == |db.orders|
    ensures forall i :: 0 <= i < |db.orders| ==> r.body.value[i].order == db.orders[i]
    ensures forall i :: 0 <= i < |db.orders| ==>
      (r.body.value[i].user.None? <==> db.orders[i].user !in UserIds(db.users)) &&
      (r.body.value[i].user.Some? ==>
         exists u :: u in db.users && u.id == db.orders[i].user && r.body.value[i].user.value == UserSummary(u.id, u.name, u.email))
    ensures forall i :: 0 <= i < |db.orders| ==>
      (r.body.value[i].product.None? <==> db.orders[i].product !in ProductIds(db.products)) &&
      (r.body.value[i].product.Some? ==>
         exists p :: p in db.products && p.id == db.orders[i].product &&
           r.body.value[i].product.value == ProductSummary(p.id, p.name, p.price, p.image, p.description))
  {
    var listing := seq(|db.orders|, i requires 0 <= i < |db.orders| => PopulateForAdmin(db.orders[i], db));
    assert forall i :: 0 <= i < |db.orders| ==>
      (FindUser(db.users, db.orders[i].user).None? <==> db.orders[i].user !in UserIds(db.users)) &&
      (FindProduct(db.products, db.orders[i].product).None? <==> db.orders[i].product !in ProductIds(db.products));
    Response(200, Json(listing))
  }

  /** `order.status = body.status || order.status`, then enum validation on
      save: an unknown id is a 404, a value outside the four statuses is a
      500 with nothing changed. */
  function UpdateOrderStatus(db: Db, id: Id, status: Option<string>): (r: Outcome<Order>)
    ensures id !in OrderIds(db.orders) ==> r == Outcome(db, Response(404, Message("Order not found")))
    ensures id in OrderIds(db.orders) && Truthy(status) && ParseStatus(status.value).None? ==>
      r == Outcome(db, Response(500, Message("Failed to update order status")))
    ensures id in OrderIds(db.orders) && (!Truthy(status) || ParseStatus(status.value).Some?) ==>
      && r.response == Response(200, Message("Order status updated"))
      && exists i :: 0 <= i < |db.orders| && db.orders[i].id == id
           && r.db == db.(orders := db.orders[i := db.orders[i].(status :=
                if Truthy(status) then ParseStatus(status.value).value else db.orders[i].status)])
    ensures r.db.users == db.users && r.db.products == db.products && r.db.carts == db.carts
  {
    match FindIndex(OrderIds(db.orders), id)
    case None => Outcome(db, Response(404, Message("Order not found")))
    case Some(i) =>
      if !Truthy(status) then
        Outcome(db, Response(200, Message("Order status updated")))
      else
        match ParseStatus(status.value)
        case None => Outcome(db, Response(500, Message("Failed to update order status")))
        case Some(st) =>
          Outcome(db.(orders := db.orders[i := db.orders[i].(status := st)]),
                  Response(200, Message("Order status updated")))
  }

  /** `findByIdAndDelete` with a 404 when nothing was deleted. */
  function DeleteOrder(db: Db, id: Id): (r: Outcome<Order>)
    ensures id !in OrderIds(db.orders) ==> r == Outcome(db, Response(404, Message("Order not found")))
    ensures id in OrderIds(db.orders) ==>
      && r.response == Response(200, Message("Order deleted successfully"))
      && r.db.orders == RemoveAt(db.orders, FindIndex(OrderIds(db.orders), id).value)
      && |r.db.orders| == |db.orders| - 1
    ensures UniqueIds(OrderIds(db.orders)) ==> id !in OrderIds(r.db.orders)
    ensures r.db.users == db.users && r.db.products == db.products && r.db.carts == db.carts
  {
    match FindIndex(OrderIds(db.orders), id)
    case None => Outcome(db, Response(404, Message("Order not found")))
    case Some(i) =>
      var rest := RemoveAt(db.orders, i);
      assert OrderIds(rest) == RemoveAt(OrderIds(db.orders), i);
      RemoveAtUnique(OrderIds(db.orders), i);
      Outcome(db.(orders := rest), Response(200, Message("Order deleted successfully")))
  }

  function DeleteAllOrders(db: Db): (r: Outcome<Order>)
    ensures r.response == Response(200, Message("All orders deleted"))
    ensures r.db.orders == []
    ensures r.db.users == db.users && r.db.products == db.products && r.db.carts == db.carts
  {
    Outcome(db.(orders := []), Response(200, Message("All orders deleted")))
  }

  // ---------------------------------------------------------------------
  // Properties relating several requests
  // ---------------------------------------------------------------------

  /** Deleting an order twice is safe: with unique identifiers the second
      delete is a 404 that changes nothing. */
  lemma DeleteOrderTwice(db: Db, id: Id)
    requires UniqueIds(OrderIds(db.orders)) && id in OrderIds(db.orders)
    ensures var once := DeleteOrder(db, id);
            && once.response.status == 200
            && DeleteOrder(once.db, id) == Outcome(once.db, Response(404, Message("Order not found")))
  {
  }

  /** A status written through the admin route is the status read back, for
      every order with that identifier's position. */
  lemma {:induction false} StatusReadBack(db: Db, id: Id, st: Status)
    requires UniqueIds(OrderIds(db.orders)) && id in OrderIds(db.orders)
    ensures var r := UpdateOrderStatus(db, id, Some(StatusName(st)));
            && r.response.status == 200
            && (exists o :: o in r.db.orders && o.id == id)
            && forall o :: o in r.db.orders && o.id == id ==> o.status == st
  {
    var i := FindIndex(OrderIds(db.orders), id).value;
    var r := UpdateOrderStatus(db, id, Some(StatusName(st)));
    assert ParseStatus(StatusName(st)) == Some(st);
    assert r.db.orders[i].id == id;
    forall o | o in r.db.orders && o.id == id
      ensures o.status == st
    {
      var k :| 0 <= k < |r.db.orders| && r.db.orders[k] == o;
      assert r.db.orders[k].id == db.orders[k].id;
      assert OrderIds(db.orders)[k] == id && OrderIds(db.orders)[i] == id;
      assert k == i;
    }
  }

  /** Bulk user deletion keeps every admin and is idempotent. */
  lemma {:induction false} AdminsIdempotent(users: seq<User>)
    ensures Admins(Admins(users)) == Admins(users)
  {
    if |users| > 0 {
      AdminsIdempotent(users[1..]);
      if users[0].isAdmin {
        var rest := Admins(users[1..]);
        assert ([users[0]] + rest)[1..] == rest;
      }
    }
  }
}
