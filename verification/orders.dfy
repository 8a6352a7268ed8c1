/** Order creation: the `/api/orders` routes (direct custom order and the
    card-payment session route that records the order before any payment is
    confirmed) and the order controller (`placeOrder`, `getOrdersByUser`).
    No route mounts `placeOrder`; it is modelled as written.

    The image store and the payment gateway are outcomes supplied by the
    caller: `Upload` says whether a design file came with the request and
    what the upload returned, and the session outcome is the gateway's
    session id or a failure. */
module Orders {
  import opened Models

  /** The multipart body shared by both routes; an absent field is undefined. */
  datatype OrderForm = OrderForm(
    userId: Option<Id>,
    productId: Option<Id>,
    size: Option<string>,
    deliveryMethod: Option<string>,
    address: Option<string>)

  /** An order as replied, with its product populated (null if dangling). */
  datatype PopulatedOrder = PopulatedOrder(order: Order, product: Option<Product>)

  /** The single line item sent to the payment gateway (currency "inr"). */
  datatype LineItem = LineItem(name: string, image: Option<string>, unitAmount: int, quantity: nat)

  /** What the card route did: its outcome and the line item it sent, if any. */
  datatype CardResult = CardResult(outcome: Outcome<string>, sent: Option<LineItem>)

  /** The minimum charge, in minor currency units. */
  const MinimumAmount := 5000

  /** `Math.max(price * 100, 5000)` with integer prices. */
  function UnitAmount(price: int): (r: int)
    ensures r >= MinimumAmount && r >= price * 100
    ensures r == MinimumAmount || r == price * 100
  {
    if price * 100 > MinimumAmount then price * 100 else MinimumAmount
  }

  /** The design URL stored on the order: "" when no file was sent. */
  function DesignUrl(upload: Upload): string
    requires !upload.UploadFailed?
  {
    if upload.Uploaded? then upload.url else ""
  }

  /** A template literal renders an undefined size as "undefined". */
  function SizeText(size: Option<string>): string
  {
    if size.Some? then size.value else "undefined"
  }

  function ProductLabel(p: Product, size: Option<string>): string
  {
    p.name + " - Size: " + SizeText(size)
  }

  // ---------------------------------------------------------------------
  // POST /custom
  // ---------------------------------------------------------------------

  /** Direct order: no product lookup, status always Pending. A failed
      upload or a missing user/product reference (required by the schema)
      ends in a 500 with nothing saved. */
  function PlaceCustom(db: Db, form: OrderForm, upload: Upload, newId: Id, now: int): (r: Outcome<PopulatedOrder>)
    ensures upload.UploadFailed? || form.userId.None? || form.productId.None? ==>
      r == Outcome(db, Response(500, Message("\U{274C} Order failed")))
    ensures !upload.UploadFailed? && form.userId.Some? && form.productId.Some? ==>
      && r.response.status == 201 && r.response.body.Json?
      && r.db == db.(orders := db.orders + [r.response.body.value.order])
      && r.response.body == Json(PopulatedOrder(r.response.body.value.order, FindProduct(db.products, form.productId.value)))
      && var o := r.response.body.value.order;
         && o.id == newId && o.user == form.userId.value && o.product == form.productId.value
         && o.size == form.size && o.deliveryMethod == form.deliveryMethod && o.address == form.address
         && o.designUrl == Some(if upload.Uploaded? then upload.url else "")
         && o.status == Pending && o.quantity == 1 && o.date == now
    ensures r.db.users == db.users && r.db.products == db.products && r.db.carts == db.carts
  {
    if upload.UploadFailed? || form.userId.None? || form.productId.None? then
      Outcome(db, Response(500, Message("\U{274C} Order failed")))
    else
      var o := NewOrder(newId, form.userId.value, form.productId.value, form.size,
                        Some(DesignUrl(upload)), form.deliveryMethod, form.address, Pending, now);
      Outcome(db.(orders := db.orders + [o]),
              Response(201, Json(PopulatedOrder(o, FindProduct(db.products, o.product)))))
  }

  // ---------------------------------------------------------------------
  // POST /create-stripe-session
  // ---------------------------------------------------------------------

  const SessionFailed := "Stripe session creation failed"

  /** Card checkout, in the source's step order: upload, product check (404,
      nothing requested or saved), session request, then the order save,
      which happens as soon as the session exists and before any payment. */
  function CreateCardSession(db: Db, form: OrderForm, upload: Upload, session: Option<string>,
                             newId: Id, now: int): (r: CardResult)
    ensures upload.UploadFailed? ==>
      r == CardResult(Outcome(db, Response(500, Message(SessionFailed))), None)
    ensures !upload.UploadFailed? && (form.productId.None? || FindProduct(db.products, form.productId.value).None?) ==>
      r == CardResult(Outcome(db, Response(404, Message("Product not found"))), None)
    ensures !upload.UploadFailed? && form.productId.Some? && FindProduct(db.products, form.productId.value).Some? ==>
      var p := FindProduct(db.products, form.productId.value).value;
      && r.sent == Some(LineItem(p.name + " - Size: " + SizeText(form.size), p.image, UnitAmount(p.price), 1))
      && (session.None? || form.userId.None? ==>
            r.outcome == Outcome(db, Response(500, Message(SessionFailed))))
      && (session.Some? && form.userId.Some? ==>
            && r.outcome.response == Response(200, Json(session.value))
            && r.outcome.db == db.(orders := db.orders + [
                 NewOrder(newId, form.userId.value, form.productId.value, form.size,
                          Some(DesignUrl(upload)), form.deliveryMethod, form.address, Pending, now)]))
    ensures r.outcome.db.users == db.users && r.outcome.db.products == db.products
         && r.outcome.db.carts == db.carts
    ensures r.outcome.db != db ==> r.sent.Some? && session.Some?
  {
    if upload.UploadFailed? then
      CardResult(Outcome(db, Response(500, Message(SessionFailed))), None)
    else if form.productId.None? || FindProduct(db.products, form.productId.value).None? then
      CardResult(Outcome(db, Response(404, Message("Product not found"))), None)
    else
      var p := FindProduct(db.products, form.productId.value).value;
      var item := LineItem(ProductLabel(p, form.size), p.image, UnitAmount(p.price), 1);
      if session.None? || form.userId.None? then
        CardResult(Outcome(db, Response(500, Message(SessionFailed))), Some(item))
      else
        var o := NewOrder(newId, form.userId.value, form.productId.value, form.size,
                          Some(DesignUrl(upload)), form.deliveryMethod, form.address, Pending, now);
        CardResult(Outcome(db.(orders := db.orders + [o]), Response(200, Json(session.value))), Some(item))
  }

  // ---------------------------------------------------------------------
  // orderController.placeOrder
  // ---------------------------------------------------------------------

  datatype PlaceOrderBody = PlaceOrderBody(
    userId: Option<Id>,
    productId: Option<Id>,
    size: Option<string>,
    deliveryMethod: Option<string>,
    address: Option<string>,
    designUrl: Option<string>,
    status: Option<string>)

  /** The destructuring default applies only to an absent status. */
  function RequestedStatus(body: PlaceOrderBody): string
  {
    if body.status.Some? then body.status.value else "Pending"
  }

  /** JSON order creation: fields are copied unchanged, the status is the
      caller's (Pending when omitted) and must pass enum validation. */
  function PlaceOrder(db: Db, body: PlaceOrderBody, newId: Id, now: int): (r: Outcome<PopulatedOrder>)
    ensures r.response.status == 201 || r == Outcome(db, Response(500, Message("Order creation failed")))
    ensures r.response.status == 201 <==>
      body.userId.Some? && body.productId.Some? && ParseStatus(RequestedStatus(body)).Some?
    ensures r.response.status == 201 ==>
      && r.response.body.Json?
      && var o := r.response.body.value.order;
         && r.db == db.(orders := db.orders + [o])
         && o.id == newId && o.user == body.userId.value && o.product == body.productId.value
         && o.size == body.size && o.deliveryMethod == body.deliveryMethod && o.address == body.address
         && o.designUrl == body.designUrl && StatusName(o.status) == RequestedStatus(body)
         && o.quantity == 1 && o.date == now
         && r.response.body.value.product == FindProduct(db.products, o.product)
    ensures body.status.None? && r.response.status == 201 ==> r.response.body.value.order.status == Pending
  {
    match ParseStatus(RequestedStatus(body))
    case None => Outcome(db, Response(500, Message("Order creation failed")))
    case Some(st) =>
      if body.userId.None? || body.productId.None? then
        Outcome(db, Response(500, Message("Order creation failed")))
      else
        var o := NewOrder(newId, body.userId.value, body.productId.value, body.size,
                          body.designUrl, body.deliveryMethod, body.address, st, now);
        Outcome(db.(orders := db.orders + [o]),
                Response(201, Json(PopulatedOrder(o, FindProduct(db.products, o.product)))))
  }

  // ---------------------------------------------------------------------
  // GET /user/:userId (orderController.getOrdersByUser)
  // ---------------------------------------------------------------------

  /** `Order.find({ user })`: the user's orders in store order. */
  function OrdersOf(orders: seq<Order>, user: Id): (r: seq<Order>)
    ensures |r| <= |orders|
    ensures forall o :: o in r <==> o in orders && o.user == user
  {
    if |orders| == 0 then []
    else if orders[0].user == user then [orders[0]] + OrdersOf(orders[1..], user)
    else OrdersOf(orders[1..], user)
  }

  function PopulateOrders(orders: seq<Order>, products: seq<Product>): (r: seq<PopulatedOrder>)
    ensures |r| == |orders|
    ensures forall i :: 0 <= i < |r| ==> r[i].order == orders[i]
    ensures forall i :: 0 <= i < |r| ==> r[i].product == FindProduct(products, orders[i].product)
  {
    seq(|orders|, i requires 0 <= i < |orders| =>
      PopulatedOrder(orders[i], FindProduct(products, orders[i].product)))
  }

  function GetOrdersByUser(db: Db, user: Id): (r: Response<seq<PopulatedOrder>>)
    ensures r.status == 200 && r.body.Json? && |r.body.value| == |OrdersOf(db.orders, user)|
    ensures forall i :: 0 <= i < |r.body.value| ==> r.body.value[i].order == OrdersOf(db.orders, user)[i]
    ensures forall po :: po in r.body.value ==> po.order in db.orders && po.order.user == user
    ensures forall po :: po in r.body.value ==> po.product == FindProduct(db.products, po.order.product)
  {
    var os := OrdersOf(db.orders, user);
    var r := PopulateOrders(os, db.products);
    assert forall po :: po in r ==> po.order in os by {
      forall po | po in r ensures po.order in os {
        var i :| 0 <= i < |r| && r[i] == po;
        assert os[i] == po.order;
      }
    }
    assert forall po :: po in r ==> po.product == FindProduct(db.products, po.order.product) by {
      forall po | po in r ensures po.product == FindProduct(db.products, po.order.product) {
        var i :| 0 <= i < |r| && r[i] == po;
      }
    }
    Response(200, Json(r))
  }

  // ---------------------------------------------------------------------
  // Properties relating several requests
  // ---------------------------------------------------------------------

  lemma {:induction false} OrdersOfAppend(a: seq<Order>, b: seq<Order>, user: Id)
    ensures OrdersOf(a + b, user) == OrdersOf(a, user) + OrdersOf(b, user)
  {
    if |a| == 0 {
      assert a + b == b;
    } else {
      assert (a + b)[1..] == a[1..] + b;
      OrdersOfAppend(a[1..], b, user);
    }
  }

  /** Every order the two routes create is Pending with quantity 1, whatever
      the delivery method; a direct order also appears last in its user's
      order listing. */
  lemma CustomOrderListed(db: Db, form: OrderForm, upload: Upload, newId: Id, now: int)
    requires !upload.UploadFailed? && form.userId.Some? && form.productId.Some?
    ensures var r := PlaceCustom(db, form, upload, newId, now);
            var o := r.response.body.value.order;
            OrdersOf(r.db.orders, form.userId.value) == OrdersOf(db.orders, form.userId.value) + [o]
  {
    var r := PlaceCustom(db, form, upload, newId, now);
    var o := r.response.body.value.order;
    OrdersOfAppend(db.orders, [o], form.userId.value);
    assert OrdersOf([o], o.user) == [o] + OrdersOf([], o.user);
  }

  /** Creating an order with a new identifier keeps order identifiers unique,
      for both routes. */
  lemma CreationKeepsIdsUnique(db: Db, form: OrderForm, upload: Upload, session: Option<string>, newId: Id, now: int)
    requires UniqueIds(OrderIds(db.orders)) && newId !in OrderIds(db.orders)
    ensures UniqueIds(OrderIds(PlaceCustom(db, form, upload, newId, now).db.orders))
    ensures UniqueIds(OrderIds(CreateCardSession(db, form, upload, session, newId, now).outcome.db.orders))
  {
    var d1 := PlaceCustom(db, form, upload, newId, now).db;
    var d2 := CreateCardSession(db, form, upload, session, newId, now).outcome.db;
    AppendFreshUnique(db.orders, d1.orders);
    AppendFreshUnique(db.orders, d2.orders);
  }

  lemma AppendFreshUnique(before: seq<Order>, after: seq<Order>)
    requires UniqueIds(OrderIds(before))
    requires after == before || (|after| == |before| + 1 && after[..|before|] == before
                                 && after[|before|].id !in OrderIds(before))
    ensures UniqueIds(OrderIds(after))
  {
    if after != before {
      var ids := OrderIds(after);
      forall i, j | 0 <= i < j < |ids|
        ensures ids[i] != ids[j]
      {
        assert after[i] == before[i];
        if j < |before| {
          assert after[j] == before[j];
          assert OrderIds(before)[i] == before[i].id && OrderIds(before)[j] == before[j].id;
        } else {
          assert OrderIds(before)[i] == before[i].id;
        }
      }
    }
  }
}
