/** Properties that span the server handlers and the pages that call them:
    what the pages show for the server's replies, and invariants of the
    order store that make two of the pages' figures agree. */
module Scenarios {
  import opened Models
  import Cart
  import Orders
  import Admin
  import Catalog
  import Accounts
  import ClientCheckout
  import ClientOrders
  import ClientSession

  // ---------------------------------------------------------------------
  // Add to cart
  // ---------------------------------------------------------------------

  /** The add reply decides the modal: an existing pair shows "Already in
      Cart", a new one "Added to Cart", and a request the server rejects
      (a missing id) the error modal. */
  lemma AddReplyModalMatchesStore(db: Db, user: Option<Id>, product: Option<Id>, newId: Id, now: int)
    ensures var m := ClientCheckout.AddReplyModal(Cart.Add(db, user, product, newId, now).response);
            && (user.None? || product.None? ==> m == ClientCheckout.AddFailedModal)
            && (user.Some? && product.Some? && Cart.HasPair(db.carts, user.value, product.value) ==>
                  m == ClientCheckout.AlreadyInCartModal)
            && (user.Some? && product.Some? && !Cart.HasPair(db.carts, user.value, product.value) ==>
                  m == ClientCheckout.AddedModal)
  {
  }

  // ---------------------------------------------------------------------
  // Buy form to direct order
  // ---------------------------------------------------------------------

  /** A complete buy form with a direct method, sent by a signed-in user
      whose design upload succeeds, creates a Pending order carrying the
      form's size, method and address and the uploaded design. */
  lemma DirectOrderFromForm(db: Db, user: Id, productId: Id, f: ClientCheckout.BuyForm, url: string,
                            newId: Id, now: int)
    requires ClientCheckout.Complete(f) && f.deliveryMethod != ClientCheckout.CardPayment
    ensures var sub := ClientCheckout.BuySubmit(Some(user), productId, f);
            && sub.Send? && sub.request.CustomOrderRequest?
            && var r := Orders.PlaceCustom(db, sub.request.form, Uploaded(url), newId, now);
               && r.response.status == 201
               && r.response.body.Json?
               && var o := r.response.body.value.order;
                  && o.user == user && o.product == productId
                  && o.size == Some(f.size) && o.deliveryMethod == Some(f.deliveryMethod)
                  && o.address == Some(f.address) && o.designUrl == Some(url)
                  && o.status == Pending && o.quantity == 1
  {
  }

  // ---------------------------------------------------------------------
  // Quantity and the two spend figures
  // ---------------------------------------------------------------------

  predicate AllQuantityOne(orders: seq<Order>)
  {
    forall i :: 0 <= i < |orders| ==> orders[i].quantity == 1
  }

  /** No order handler ever stores a quantity other than the default. */
  lemma HandlersKeepQuantityOne(db: Db, form: Orders.OrderForm, upload: Upload, session: Option<string>,
                                body: Orders.PlaceOrderBody, id: Id, status: Option<string>, newId: Id, now: int)
    requires AllQuantityOne(db.orders)
    ensures AllQuantityOne(Orders.PlaceCustom(db, form, upload, newId, now).db.orders)
    ensures AllQuantityOne(Orders.CreateCardSession(db, form, upload, session, newId, now).outcome.db.orders)
    ensures AllQuantityOne(Orders.PlaceOrder(db, body, newId, now).db.orders)
    ensures AllQuantityOne(Admin.UpdateOrderStatus(db, id, status).db.orders)
    ensures AllQuantityOne(Admin.DeleteOrder(db, id).db.orders)
  {
    var d := Admin.DeleteOrder(db, id).db;
    match FindIndex(OrderIds(db.orders), id)
    case None =>
    case Some(i) =>
      forall k | 0 <= k < |d.orders|
        ensures d.orders[k].quantity == 1
      {
        if k < i { assert d.orders[k] == db.orders[k]; } else { assert d.orders[k] == db.orders[k + 1]; }
      }
  }

  /** The order page's line for a populated order. */
  function Line(po: Orders.PopulatedOrder): ClientOrders.OrderLine
  {
    ClientOrders.OrderLine(if po.product.Some? then Some(po.product.value.price) else None,
                           Some(po.order.quantity))
  }

  function Lines(pos: seq<Orders.PopulatedOrder>): (r: seq<ClientOrders.OrderLine>)
    ensures |r| == |pos|
    ensures forall i :: 0 <= i < |pos| ==> r[i] == Line(pos[i])
  {
    seq(|pos|, i requires 0 <= i < |pos| => Line(pos[i]))
  }

  /** While every stored order has quantity 1, the orders page's total and
      the dashboards' spend agree on a user's order listing. */
  lemma SpendAgreesOnStoredOrders(db: Db, user: Id)
    requires AllQuantityOne(db.orders)
    ensures var lines := Lines(Orders.GetOrdersByUser(db, user).body.value);
            ClientOrders.SumCost(lines) == ClientOrders.PriceSum(ClientOrders.Prices(lines))
  {
    var pos := Orders.GetOrdersByUser(db, user).body.value;
    var lines := Lines(pos);
    forall i | 0 <= i < |lines|
      ensures ClientOrders.QuantityOne(lines[i])
    {
      assert pos[i] in pos;
      var k :| 0 <= k < |db.orders| && db.orders[k] == pos[i].order;
    }
    ClientOrders.SpendFiguresAgree(lines);
  }

  // ---------------------------------------------------------------------
  // Status written by the administrator, read by the customer
  // ---------------------------------------------------------------------

  /** After the administrator sets a status on an order, the owner's order
      listing shows that status on the order, and its timeline points at
      that status's step. */
  lemma StatusUpdateVisible(db: Db, o: Order, st: Status)
    requires UniqueIds(OrderIds(db.orders)) && o in db.orders
    ensures var r := Admin.UpdateOrderStatus(db, o.id, Some(StatusName(st)));
            var listing := Orders.GetOrdersByUser(r.db, o.user).body.value;
            && r.response.status == 200
            && (exists po :: po in listing && po.order.id == o.id)
            && forall po :: po in listing && po.order.id == o.id ==>
                 po.order.status == st && ClientOrders.StatusIndex(StatusName(po.order.status)) == ClientOrders.StepOf(st)
  {
    var k :| 0 <= k < |db.orders| && db.orders[k] == o;
    assert OrderIds(db.orders)[k] == o.id;
    Admin.StatusReadBack(db, o.id, st);
    ClientOrders.StatusNamesIndexed(st, StatusName(st));
    var r := Admin.UpdateOrderStatus(db, o.id, Some(StatusName(st)));
    var o' :| o' in r.db.orders && o'.id == o.id;
    assert o'.user == o.user by {
      var j :| 0 <= j < |r.db.orders| && r.db.orders[j] == o';
      assert OrderIds(r.db.orders)[j] == o.id;
      assert r.db.orders[j] == db.orders[j].(status := st);
      assert OrderIds(db.orders)[j] == o.id;
    }
    var listing := Orders.GetOrdersByUser(r.db, o.user).body.value;
    assert o' in Orders.OrdersOf(r.db.orders, o.user);
    var m :| 0 <= m < |Orders.OrdersOf(r.db.orders, o.user)| && Orders.OrdersOf(r.db.orders, o.user)[m] == o';
    assert listing[m].order == o';
  }

  // ---------------------------------------------------------------------
  // Administrator's screens
  // ---------------------------------------------------------------------

  /** The administrator's product listing holds exactly the products of the
      public listing, in store order rather than newest first. */
  lemma AdminProductListingMatchesCatalog(db: Db)
    ensures multiset(Admin.GetAllProducts(db).body.value) == multiset(Catalog.GetAllProducts(db).body.value)
  {
  }

  /** Every order a customer's listing shows is in the administrator's
      listing, populated with the same product's fields. */
  lemma AdminListingCoversUserListings(db: Db, user: Id)
    requires UniqueIds(ProductIds(db.products))
    ensures forall po :: po in Orders.GetOrdersByUser(db, user).body.value ==>
      exists a :: a in Admin.GetAllOrders(db).body.value && a.order == po.order &&
        a.product == (if po.product.Some? then Some(Admin.ProductSummaryOf(po.product.value)) else None)
  {
    var all := Admin.GetAllOrders(db).body.value;
    forall po | po in Orders.GetOrdersByUser(db, user).body.value
      ensures exists a :: (a in all && a.order == po.order &&
        a.product == (if po.product.Some? then Some(Admin.ProductSummaryOf(po.product.value)) else None))
    {
      var k :| 0 <= k < |db.orders| && db.orders[k] == po.order;
      var a := all[k];
      if po.product.Some? {
        var q := po.product.value;
        var j :| 0 <= j < |db.products| && db.products[j] == q;
        assert ProductIds(db.products)[j] == po.order.product;
        var p :| p in db.products && p.id == po.order.product &&
                 a.product.value == Admin.ProductSummary(p.id, p.name, p.price, p.image, p.description);
        var i :| 0 <= i < |db.products| && db.products[i] == p;
        assert ProductIds(db.products)[i] == po.order.product;
      }
      assert a in all;
    }
  }

  /** With an image and a numeric price, the two product creation routes
      store the same product; only the reply status differs. */
  lemma AdminCreateAgreesWithCatalog(db: Db, name: string, price: string, description: string, file: string,
                                     newId: Id, now: int)
    requires CastNumber(price).Some?
    ensures var viaAdmin := Admin.CreateProduct(db, name, price, description, Some(file), newId, now);
            var viaCatalog := Catalog.CreateProduct(db, name, price, description, Some(file), newId, now);
            && viaAdmin.db == viaCatalog.db
            && viaAdmin.response.body == viaCatalog.response.body
            && viaAdmin.response.status == 200 && viaCatalog.response.status == 201
  {
  }

  /** The users whose "Delete User" button is enabled are exactly the users
      the bulk deletion removes. */
  lemma DeleteButtonMatchesBulkDelete(db: Db, u: User)
    requires u in db.users
    ensures ClientCheckout.DeleteUserDisabled(Admin.Public(u)) <==> u in Admin.DeleteAllUsers(db).db.users
  {
  }

  /** After the bulk order deletion every customer's order listing is empty. */
  lemma DeleteAllOrdersEmptiesListings(db: Db, user: Id)
    ensures Orders.GetOrdersByUser(Admin.DeleteAllOrders(db).db, user).body.value == []
    ensures Admin.GetAllOrders(Admin.DeleteAllOrders(db).db).body.value == []
  {
  }

  /** Deleting every product leaves cart entries and orders in place with
      dangling references: every cart item and every order listed afterwards
      shows no product. */
  lemma DeleteAllProductsLeavesDangling(db: Db, user: Id)
    ensures var d := Admin.DeleteAllProducts(db).db;
            && Cart.Entries(Cart.ListCart(d, user).body.value) == Cart.CartOf(db.carts, user)
            && (forall it :: it in Cart.ListCart(d, user).body.value ==> it.product.None?)
            && |Orders.GetOrdersByUser(d, user).body.value| == |Orders.OrdersOf(db.orders, user)|
            && (forall po :: po in Orders.GetOrdersByUser(d, user).body.value ==> po.product.None?)
  {
  }

  /** The two product update handlers disagree on an empty field: the
      admin handler keeps the stored name, the product controller stores
      the empty one. */
  lemma UpdateHandlersDisagreeOnEmptyName(db: Db, p: Product)
    requires p in db.products && p.name != "" && UniqueIds(ProductIds(db.products))
    ensures var viaAdmin := Admin.UpdateProduct(db, p.id, Admin.ProductPatch(Some(""), None, None), None);
            var viaCatalog := Catalog.UpdateProduct(db, p.id, Some(""), None, None, None);
            && viaAdmin.response.body.value.name != ""
            && viaCatalog.response.body.value.value.name == ""
  {
    var k :| 0 <= k < |db.products| && db.products[k] == p;
    assert ProductIds(db.products)[k] == p.id;
    var i := FindIndex(ProductIds(db.products), p.id).value;
    assert ProductIds(db.products)[i] == p.id;
    assert i == k;
  }

  /** Saving an edited product without changing a field or choosing a new
      file leaves the store as it was and replies the stored product,
      image included. */
  lemma EditUnchangedKeepsProduct(db: Db, p: Product)
    requires p in db.products && UniqueIds(ProductIds(db.products))
    ensures var req := ClientCheckout.ProductSubmit(ClientCheckout.EditDraft(p)).request;
            var r := Catalog.UpdateProduct(db, req.id, Some(req.name), Some(req.price), Some(req.description), req.image);
            && r.db == db
            && r.response == Response(200, Json(Some(p)))
  {
    var k :| 0 <= k < |db.products| && db.products[k] == p;
    assert ProductIds(db.products)[k] == p.id;
    ClientCheckout.EditSendsNoImage(p);
    var req := ClientCheckout.ProductSubmit(ClientCheckout.EditDraft(p)).request;
    var r := Catalog.UpdateProduct(db, req.id, Some(req.name), Some(req.price), Some(req.description), req.image);
    var i :| 0 <= i < |db.products| && db.products[i].id == p.id &&
             r.db == db.(products := db.products[i := r.response.body.value.value]) &&
             r.response.body.value.value.image == db.products[i].image &&
             r.response.body.value.value.id == db.products[i].id &&
             r.response.body.value.value.createdAt == db.products[i].createdAt;
    assert ProductIds(db.products)[i] == p.id;
    assert i == k;
    assert r.response.body.value.value == p;
    assert db.products[i := p] == db.products;
  }

  /** The dashboards fetch their figures exactly when the navigation bar
      shows a signed-in user. */
  lemma StatsFetchedForSignedInUser(slot: ClientSession.UserSlot)
    ensures ClientOrders.FetchesStats(slot) <==> ClientSession.NavbarUser(slot).Some?
  {
  }

  // ---------------------------------------------------------------------
  // Seeded administrator
  // ---------------------------------------------------------------------

  /** The page-side view of a user record as the login reply stores it. */
  function ClientOf(u: User): ClientSession.ClientUser
  {
    ClientSession.ClientUser(Some(u.id), None, ClientSession.Bool(u.isAdmin), u.address)
  }

  /** The seeded account is an administrator for both the login page and
      the navigation bar. */
  lemma SeededAdminSeesAdminPages(db: Db, newId: Id)
    requires !Accounts.HasEmail(db.users, Accounts.AdminEmail)
    ensures var u := Accounts.CreateAdmin(db, newId).users[|db.users|];
            && u.email == Accounts.AdminEmail
            && ClientSession.LoginTarget(ClientSession.Stored(ClientOf(u))) == Some("/admin")
            && ClientSession.NavbarIsAdmin(ClientSession.Stored(ClientOf(u)))
  {
  }
}
