/** The decisions the shop pages take before talking to the server: the buy
    form's required fields and its card/direct dispatch (the same on the
    product card, the products page and the cart page, which also drops the
    bought item from the cart), the reply modal after an add-to-cart, the
    product list's sort options, and the administrator's product form,
    status badges and user-deletion button. */
module ClientCheckout {
  import opened Models
  import Orders
  import Sorting
  import Admin

  // ---------------------------------------------------------------------
  // Buy form
  // ---------------------------------------------------------------------

  /** The buy form's state: size, chosen design file, delivery method (a
      select whose default is "Home Delivery") and address. */
  datatype BuyForm = BuyForm(size: string, design: Option<string>, deliveryMethod: string, address: string)

  const CardPayment := "Card Payment"

  predicate Complete(f: BuyForm)
  {
    f.size != "" && f.design.Some? && f.deliveryMethod != "" && f.address != ""
  }

  /** The multipart body built from the form; the design travels as the
      file part, and the user id is the signed-in user's. */
  function OrderFormOf(userId: Option<Id>, productId: Id, f: BuyForm): (r: Orders.OrderForm)
    ensures r.userId == userId && r.productId == Some(productId)
    ensures r.size == Some(f.size) && r.deliveryMethod == Some(f.deliveryMethod) && r.address == Some(f.address)
  {
    Orders.OrderForm(userId, Some(productId), Some(f.size), Some(f.deliveryMethod), Some(f.address))
  }

  datatype CheckoutRequest =
    | SessionRequest(form: Orders.OrderForm)
    | CustomOrderRequest(form: Orders.OrderForm)
    | RemoveFromCart(productId: Id, userId: Option<Id>)

  datatype Submission = MissingFields | Send(request: CheckoutRequest)

  /** `handleBuySubmit` on the product card and the products page: any falsy
      field stops it with the "Missing Fields" modal; card payment goes to
      the session route only, any other method to the direct-order route
      only. */
  function BuySubmit(userId: Option<Id>, productId: Id, f: BuyForm): (r: Submission)
    ensures r.MissingFields? <==> !Complete(f)
    ensures r.Send? && f.deliveryMethod == CardPayment ==> r.request == SessionRequest(OrderFormOf(userId, productId, f))
    ensures r.Send? && f.deliveryMethod != CardPayment ==> r.request == CustomOrderRequest(OrderFormOf(userId, productId, f))
  {
    if !Complete(f) then MissingFields
    else if f.deliveryMethod == CardPayment then Send(SessionRequest(OrderFormOf(userId, productId, f)))
    else Send(CustomOrderRequest(OrderFormOf(userId, productId, f)))
  }

  /** The cart page's `handleBuySubmit`: the same first request, and after a
      direct order that went through, the item is removed from the cart. A
      card payment leaves the cart untouched. */
  function CartBuySubmit(userId: Option<Id>, productId: Id, f: BuyForm, orderPlaced: bool): (r: seq<CheckoutRequest>)
    ensures |r| == 0 <==> BuySubmit(userId, productId, f).MissingFields?
    ensures |r| > 0 ==> r[0] == BuySubmit(userId, productId, f).request
    ensures |r| == 2 <==> Complete(f) && f.deliveryMethod != CardPayment && orderPlaced
    ensures |r| == 2 ==> r[1] == RemoveFromCart(productId, userId)
    ensures |r| <= 2
  {
    match BuySubmit(userId, productId, f)
    case MissingFields => []
    case Send(req) =>
      if req.CustomOrderRequest? && orderPlaced then [req, RemoveFromCart(productId, userId)]
      else [req]
  }

  // ---------------------------------------------------------------------
  // Add-to-cart reply
  // ---------------------------------------------------------------------

  datatype AddModal = AlreadyInCartModal | AddedModal | AddFailedModal

  /** A non-2xx reply lands in the catch; a 2xx reply whose message is
      "Already in cart" gets that modal, any other 2xx the success one. */
  function AddReplyModal<T>(resp: Response<T>): (r: AddModal)
    ensures r == AddFailedModal <==> !(200 <= resp.status < 300)
    ensures r == AlreadyInCartModal <==> 200 <= resp.status < 300 && resp.body == Message("Already in cart")
  {
    if !(200 <= resp.status < 300) then AddFailedModal
    else if resp.body == Message("Already in cart") then AlreadyInCartModal
    else AddedModal
  }

  // ---------------------------------------------------------------------
  // Products page sort options
  // ---------------------------------------------------------------------

  predicate KnownOption(option: string)
  {
    option == "az" || option == "za" || option == "lowHigh" || option == "highLow" || option == "newest"
  }

  /** The comparator of each option as an ascending key. `rank` orders names
      as `localeCompare` does; an unknown option compares everything equal. */
  function SortKey(option: string, rank: string -> int): Product -> int
  {
    if option == "az" then (p: Product) => rank(p.name)
    else if option == "za" then (p: Product) => -rank(p.name)
    else if option == "lowHigh" then (p: Product) => p.price
    else if option == "highLow" then (p: Product) => -p.price
    else if option == "newest" then (p: Product) => -p.createdAt
    else (p: Product) => 0
  }

  /** `[...products].sort(comparator)`: a rearrangement of the list in the
      chosen order; products the comparator ties (equal prices, say) keep
      their order in the fetched list, and an unknown option keeps the whole
      list as it was. */
  function FilteredProducts(products: seq<Product>, option: string, rank: string -> int): (r: seq<Product>)
    ensures multiset(r) == multiset(products)
    ensures option == "lowHigh" ==> forall i, j :: 0 <= i < j < |r| ==> r[i].price <= r[j].price
    ensures option == "highLow" ==> forall i, j :: 0 <= i < j < |r| ==> r[i].price >= r[j].price
    ensures option == "newest" ==> forall i, j :: 0 <= i < j < |r| ==> r[i].createdAt >= r[j].createdAt
    ensures option == "az" ==> forall i, j :: 0 <= i < j < |r| ==> rank(r[i].name) <= rank(r[j].name)
    ensures option == "za" ==> forall i, j :: 0 <= i < j < |r| ==> rank(r[i].name) >= rank(r[j].name)
    ensures !KnownOption(option) ==> r == products
    ensures forall k :: Sorting.WithKey(r, SortKey(option, rank), k) == Sorting.WithKey(products, SortKey(option, rank), k)
  {
    var key := SortKey(option, rank);
    assert forall k :: Sorting.WithKey(Sorting.SortBy(products, key), key, k) == Sorting.WithKey(products, key, k) by {
      forall k
        ensures Sorting.WithKey(Sorting.SortBy(products, key), key, k) == Sorting.WithKey(products, key, k)
      {
        Sorting.SortStable(products, key, k);
      }
    }
    if !KnownOption(option) then
      SortedIsFixpointConstant(products, key);
      Sorting.SortBy(products, key)
    else
      var r := Sorting.SortBy(products, key);
      assert forall i, j :: 0 <= i < j < |r| ==> key(r[i]) <= key(r[j]);
      r
  }

  lemma SortedIsFixpointConstant(products: seq<Product>, key: Product -> int)
    requires forall p :: key(p) == 0
    ensures Sorting.SortBy(products, key) == products
  {
    Sorting.SortedIsFixpoint(products, key);
  }

  // ---------------------------------------------------------------------
  // Administrator's product form
  // ---------------------------------------------------------------------

  /** The form's state; `image` is the newly chosen file, `id` is set while
      an existing product is being edited. The price is the text the form
      field sends. */
  datatype ProductDraft = ProductDraft(name: string, price: string, description: string,
                                       image: Option<string>, id: Option<Id>)

  datatype ProductRequest =
    | PutProduct(id: Id, name: string, price: string, description: string, image: Option<string>)
    | PostProduct(name: string, price: string, description: string, file: string)

  datatype ProductSubmission = SendProduct(request: ProductRequest) | Warn(message: string)

  const UploadWarning := "\U{26A0}\U{FE0F} Please upload a product image!"

  /** `handleProductSubmit`: an edited product is always sent as an update,
      with the image part only when one was chosen; a new product needs an
      image, without which nothing is sent and the warning is shown. */
  function ProductSubmit(d: ProductDraft): (r: ProductSubmission)
    ensures r.Warn? <==> d.id.None? && d.image.None?
    ensures r.Warn? ==> r.message == UploadWarning
    ensures r.SendProduct? && d.id.Some? ==>
      r.request == PutProduct(d.id.value, d.name, d.price, d.description, d.image)
    ensures r.SendProduct? && d.id.None? ==>
      r.request.PostProduct? && Some(r.request.file) == d.image &&
      r.request.name == d.name && r.request.price == d.price && r.request.description == d.description
  {
    match d.id
    case Some(id) => SendProduct(PutProduct(id, d.name, d.price, d.description, d.image))
    case None =>
      match d.image
      case None => Warn(UploadWarning)
      case Some(file) => SendProduct(PostProduct(d.name, d.price, d.description, file))
  }

  /** `handleEditProduct`: the fields come from the product (its price
      travels as its decimal text), no new image is chosen, and the
      product's id marks the form as an edit. */
  function EditDraft(p: Product): (r: ProductDraft)
    ensures r.id == Some(p.id) && r.image.None?
    ensures r.name == p.name && r.description == p.description
    ensures CastNumber(r.price) == Some(p.price)
  {
    DecimalTextRoundTrip(p.price);
    ProductDraft(p.name, DecimalText(p.price), p.description, None, Some(p.id))
  }

  /** Saving an edit without choosing a file sends an update with no image
      part, for that very product, carrying its stored fields. */
  lemma EditSendsNoImage(p: Product)
    ensures var r := ProductSubmit(EditDraft(p));
            && r.SendProduct? && r.request.PutProduct? && r.request.id == p.id && r.request.image.None?
            && r.request.name == p.name && r.request.description == p.description
            && CastNumber(r.request.price) == Some(p.price)
  {
  }

  // ---------------------------------------------------------------------
  // Administrator's order and user cards
  // ---------------------------------------------------------------------

  /** The status badge colour; the comparison is exact. */
  function BadgeVariant(status: string): (r: string)
    ensures r == "warning" <==> status == StatusName(Pending)
    ensures r == "info" <==> status == StatusName(Shipped)
    ensures r == "success" <==> status == StatusName(Delivered)
    ensures r == "secondary" <==> ParseStatus(status).None? || ParseStatus(status) == Some(Cancelled)
  {
    if status == "Pending" then "warning"
    else if status == "Shipped" then "info"
    else if status == "Delivered" then "success"
    else "secondary"
  }

  /** Every stored status other than Cancelled gets a colour of its own. */
  lemma BadgesDistinguishStoredStatuses(a: Status, b: Status)
    requires a != b && a != Cancelled && b != Cancelled
    ensures BadgeVariant(StatusName(a)) != BadgeVariant(StatusName(b))
    ensures BadgeVariant(StatusName(a)) != "secondary"
  {
  }

  /** The "Delete User" button is disabled for administrators. */
  function DeleteUserDisabled(u: Admin.PublicUser): (r: bool)
    ensures r <==> u.isAdmin
  {
    u.isAdmin
  }
}
