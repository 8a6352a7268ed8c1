/** The browser-side session: what the pages keep in local storage (the
    signed-in user, the token, the action a visitor asked for before signing
    in) and the decisions taken on it — the login page's replay of that
    action, the product pages' prompts, the navigation bar's admin test and
    logout.

    Storage holds parsed values; a stored `user` text is modelled by the
    cases that matter to the pages' guards (missing, empty, the literal
    text `undefined`, a user object, or text that is not JSON). */
module ClientSession {
  import opened Models

  /** A JSON value as read back for the user's `isAdmin` field. */
  datatype JsValue = Undefined | Null | Bool(b: bool) | Number(n: int) | Text(s: string)

  predicate JsTruthy(v: JsValue)
  {
    match v
    case Undefined => false
    case Null => false
    case Bool(b) => b
    case Number(n) => n != 0
    case Text(s) => s != ""
  }

  /** The fields of the stored user the pages read. */
  datatype ClientUser = ClientUser(id: Option<Id>, role: Option<string>, isAdmin: JsValue, address: Option<string>)

  datatype UserSlot = Missing | EmptyText | UndefinedText | Stored(user: ClientUser) | Malformed

  datatype ActionType = AddToCart | BuyNow | OtherAction(name: string)

  /** `{ type, productId }` as stored under `pendingAction` / `openBuyNow`. */
  datatype PendingAction = PendingAction(kind: ActionType, productId: Id)

  datatype Storage = Storage(
    user: UserSlot,
    token: Option<string>,
    userId: Option<Id>,
    pendingAction: Option<PendingAction>,
    openBuyNow: Option<PendingAction>)

  /** The product pages and cards parse the stored user while rendering:
      a missing entry parses to null and a stored user to itself, while the
      empty text, `undefined` and malformed text throw, so the page never
      renders and none of its buttons exists. */
  predicate Renders(slot: UserSlot)
  {
    slot.Missing? || slot.Stored?
  }

  /** `JSON.parse(localStorage.getItem('user'))?._id` on a page that
      rendered: the stored user's id, or none for a missing entry. */
  function SignedInId(slot: UserSlot): Option<Id>
  {
    if slot.Stored? then slot.user.id else None
  }

  // ---------------------------------------------------------------------
  // Product pages: asking to buy or add before signing in
  // ---------------------------------------------------------------------

  /** What a click on "Add to cart" / "Buy now" shows; `PageFailed` when
      the page threw while rendering and there was nothing to click. */
  datatype ClickEffect = LoginRequired | ConfirmAction(userId: Id, productId: Id) | PageFailed

  datatype ClickResult = ClickResult(storage: Storage, effect: ClickEffect)

  /** Without a signed-in id the action is remembered and the login prompt
      shown; no request is made. With one, the confirmation opens and the
      storage is untouched. A stored user that does not parse leaves no page
      and changes nothing. */
  function RequestAction(st: Storage, kind: ActionType, productId: Id): (r: ClickResult)
    ensures r.effect.PageFailed? <==> !Renders(st.user)
    ensures r.effect.PageFailed? ==> r.storage == st
    ensures r.effect.LoginRequired? <==> Renders(st.user) && SignedInId(st.user).None?
    ensures r.effect.LoginRequired? ==>
      r.storage == st.(pendingAction := Some(PendingAction(kind, productId)))
    ensures r.effect.ConfirmAction? ==>
      r.storage == st && r.effect == ConfirmAction(SignedInId(st.user).value, productId)
  {
    if !Renders(st.user) then ClickResult(st, PageFailed)
    else
      match SignedInId(st.user)
      case None => ClickResult(st.(pendingAction := Some(PendingAction(kind, productId))), LoginRequired)
      case Some(u) => ClickResult(st, ConfirmAction(u, productId))
  }

  // ---------------------------------------------------------------------
  // Login page
  // ---------------------------------------------------------------------

  /** The modal the login page opens after a successful sign-in. */
  datatype LoginModal = CartPrompt | BuyNowPrompt | NoModal | Welcome

  datatype LoginResult = LoginResult(storage: Storage, modal: LoginModal)

  /** Stores the token, the user and its id, then looks at the remembered
      action: add-to-cart and buy-now get their own prompt, an action of
      another type opens nothing, and no action opens the welcome modal. */
  function LoginSucceeded(st: Storage, user: ClientUser, token: string): (r: LoginResult)
    ensures r.storage == st.(user := Stored(user), token := Some(token), userId := user.id)
    ensures st.pendingAction.None? <==> r.modal == Welcome
    ensures r.modal == CartPrompt <==> st.pendingAction.Some? && st.pendingAction.value.kind == AddToCart
    ensures r.modal == BuyNowPrompt <==> st.pendingAction.Some? && st.pendingAction.value.kind == BuyNow
    ensures r.modal == NoModal <==> st.pendingAction.Some? && st.pendingAction.value.kind.OtherAction?
  {
    var st' := st.(user := Stored(user), token := Some(token), userId := user.id);
    var modal :=
      match st.pendingAction
      case None => Welcome
      case Some(a) =>
        match a.kind
        case AddToCart => CartPrompt
        case BuyNow => BuyNowPrompt
        case OtherAction(_) => NoModal;
    LoginResult(st', modal)
  }

  datatype CartAddRequest = CartAddRequest(userId: Option<Id>, productId: Id)

  datatype CartOkResult = CartOkResult(storage: Storage, request: Option<CartAddRequest>, redirect: Option<string>)

  /** `handleCartOk`: posts the remembered product for the stored user; the
      remembered action is dropped (and the page moves on to the cart) only
      when the request succeeded. Reading a missing action or user throws
      before any request. */
  function CartOk(st: Storage, added: bool): (r: CartOkResult)
    ensures st.pendingAction.None? || !st.user.Stored? ==> r == CartOkResult(st, None, None)
    ensures st.pendingAction.Some? && st.user.Stored? ==>
      r.request == Some(CartAddRequest(st.user.user.id, st.pendingAction.value.productId))
    ensures r.storage.pendingAction.None? <==> st.pendingAction.None? || (st.user.Stored? && added)
    ensures r.storage == st || r.storage == st.(pendingAction := None)
    ensures r.redirect.Some? <==> r.storage != st
    ensures r.redirect.Some? ==> r.redirect.value == "/cart"
  {
    if st.pendingAction.None? || !st.user.Stored? then CartOkResult(st, None, None)
    else
      var request := Some(CartAddRequest(st.user.user.id, st.pendingAction.value.productId));
      if added then CartOkResult(st.(pendingAction := None), request, Some("/cart"))
      else CartOkResult(st, request, None)
  }

  /** `handleBuyNowOk`: the remembered action moves to `openBuyNow`. */
  function BuyNowOk(st: Storage): (r: Storage)
    ensures r.openBuyNow == st.pendingAction && r.pendingAction.None?
    ensures r.user == st.user && r.token == st.token && r.userId == st.userId
  {
    st.(openBuyNow := st.pendingAction, pendingAction := None)
  }

  /** `handleLoginSuccessOk`: `user?.isAdmin` decides by truthiness.
      Parsing the empty text, `undefined` or malformed text throws, so no
      navigation happens; a missing entry parses to null. */
  function LoginTarget(slot: UserSlot): (r: Option<string>)
    ensures r == Some("/admin") <==> slot.Stored? && JsTruthy(slot.user.isAdmin)
    ensures r == Some("/dashboard") <==> slot.Missing? || (slot.Stored? && !JsTruthy(slot.user.isAdmin))
    ensures r.None? <==> slot.EmptyText? || slot.UndefinedText? || slot.Malformed?
  {
    match slot
    case Missing => Some("/dashboard")
    case Stored(u) => if JsTruthy(u.isAdmin) then Some("/admin") else Some("/dashboard")
    case _ => None
  }

  // ---------------------------------------------------------------------
  // Product card: reopening the buy form after login
  // ---------------------------------------------------------------------

  datatype Reopen = Reopen(storage: Storage, opensBuyForm: bool)

  /** A card opens its buy form (and clears the entry) only when the stored
      `openBuyNow` names its own product; other cards leave it alone. */
  function ConsumeOpenBuyNow(st: Storage, productId: Id): (r: Reopen)
    ensures r.opensBuyForm <==> st.openBuyNow.Some? && st.openBuyNow.value.productId == productId
    ensures r.opensBuyForm ==> r.storage == st.(openBuyNow := None)
    ensures !r.opensBuyForm ==> r.storage == st
  {
    if st.openBuyNow.Some? && st.openBuyNow.value.productId == productId then
      Reopen(st.(openBuyNow := None), true)
    else Reopen(st, false)
  }

  // ---------------------------------------------------------------------
  // Products page: replaying the remembered action
  // ---------------------------------------------------------------------

  datatype ReplayAction = NoReplay | AskAddToCart(product: Product) | OpenBuyForm(product: Product) | PromptLoginAgain

  datatype Replay = Replay(storage: Storage, action: ReplayAction)

  /** With a user and a remembered action whose product is in the loaded
      list, the action is replayed and then forgotten; if the product is not
      (yet) in the list, the action stays stored for a later render. An
      add-to-cart replay for a user without an id goes back through the
      login prompt, whose stored action the removal then drops. */
  function ReplayPending(st: Storage, products: seq<Product>): (r: Replay)
    ensures r.storage == st || r.storage == st.(pendingAction := None)
    ensures r.storage.pendingAction.None? <==>
      st.pendingAction.None? ||
      (st.user.Stored? && FindProduct(products, st.pendingAction.value.productId).Some?)
    ensures r.action != NoReplay ==>
      && st.user.Stored? && st.pendingAction.Some?
      && FindProduct(products, st.pendingAction.value.productId).Some?
    ensures r.action.AskAddToCart? ==>
      && st.pendingAction.value.kind == AddToCart && st.user.user.id.Some?
      && r.action.product in products && r.action.product.id == st.pendingAction.value.productId
    ensures r.action.OpenBuyForm? ==>
      && st.pendingAction.value.kind == BuyNow
      && r.action.product in products && r.action.product.id == st.pendingAction.value.productId
  {
    if !st.user.Stored? || st.pendingAction.None? then Replay(st, NoReplay)
    else
      var a := st.pendingAction.value;
      match FindProduct(products, a.productId)
      case None => Replay(st, NoReplay)
      case Some(p) =>
        var action :=
          match a.kind
          case AddToCart => if st.user.user.id.Some? then AskAddToCart(p) else PromptLoginAgain
          case BuyNow => OpenBuyForm(p)
          case OtherAction(_) => NoReplay;
        Replay(st.(pendingAction := None), action)
  }

  // ---------------------------------------------------------------------
  // Cart page
  // ---------------------------------------------------------------------

  /** What the cart page does on mount: fetch the cart of the signed-in
      user (with the delivery address prefilled from the stored user when it
      has one), prompt for login, or nothing because parsing the stored user
      threw while rendering. */
  datatype CartPageAction = FetchCart(userId: Id, address: string) | CartLoginPrompt | CartPageFailed

  /** `userId` is read at render; without one the "Login Required" prompt
      opens and no request is made. */
  function CartPage(slot: UserSlot): (r: CartPageAction)
    ensures r.CartPageFailed? <==> !Renders(slot)
    ensures r.CartLoginPrompt? <==> Renders(slot) && SignedInId(slot).None?
    ensures r.FetchCart? ==> SignedInId(slot) == Some(r.userId)
    ensures r.FetchCart? ==>
      r.address == (if Truthy(slot.user.address) then slot.user.address.value else "")
  {
    if !Renders(slot) then CartPageFailed
    else
      match SignedInId(slot)
      case None => CartLoginPrompt
      case Some(id) =>
        FetchCart(id, if Truthy(slot.user.address) then slot.user.address.value else "")
  }

  /** The cart page and the product pages agree on who is signed in: the
      cart is fetched exactly when a product click would open the
      confirmation, for that same user, and the login prompt shows on one
      exactly when it shows on the other. */
  lemma CartPageAgreesWithProductPages(st: Storage, kind: ActionType, productId: Id)
    ensures CartPage(st.user).FetchCart? <==> RequestAction(st, kind, productId).effect.ConfirmAction?
    ensures CartPage(st.user).FetchCart? ==>
      CartPage(st.user).userId == RequestAction(st, kind, productId).effect.userId
    ensures CartPage(st.user).CartLoginPrompt? <==> RequestAction(st, kind, productId).effect.LoginRequired?
  {
  }

  /** After signing in with a user that has an id, the cart page fetches
      that user's cart; after logging out it asks for login again. */
  lemma CartPageAcrossSignIn(st: Storage, user: ClientUser, token: string)
    requires user.id.Some?
    ensures var signedIn := LoginSucceeded(st, user, token).storage;
            && CartPage(signedIn.user).FetchCart?
            && CartPage(signedIn.user).userId == user.id.value
            && CartPage(Logout(signedIn).user) == CartLoginPrompt
  {
  }

  // ---------------------------------------------------------------------
  // Navigation bar
  // ---------------------------------------------------------------------

  /** The navigation bar's reading of the slot: missing, empty, `undefined`
      and unparsable text all count as signed out. */
  function NavbarUser(slot: UserSlot): (r: Option<ClientUser>)
    ensures r.Some? <==> slot.Stored?
    ensures r.Some? ==> r.value == slot.user
  {
    if slot.Stored? then Some(slot.user) else None
  }

  /** `user && (user.role === 'admin' || user.isAdmin === true)` */
  function NavbarIsAdmin(slot: UserSlot): (r: bool)
    ensures r <==> slot.Stored? && (slot.user.role == Some("admin") || slot.user.isAdmin == Bool(true))
  {
    match NavbarUser(slot)
    case None => false
    case Some(u) => u.role == Some("admin") || u.isAdmin == Bool(true)
  }

  /** The profile link, rendered only for a signed-in user. */
  function ProfileLink(slot: UserSlot): (r: string)
    requires slot.Stored?
    ensures r == "/admin" <==> NavbarIsAdmin(slot)
    ensures r == "/admin" || r == "/dashboard"
  {
    if NavbarIsAdmin(slot) then "/admin" else "/dashboard"
  }

  /** `handleLogout`: the user and the token are removed, nothing else. */
  function Logout(st: Storage): (r: Storage)
    ensures NavbarUser(r.user).None? && r.token.None?
    ensures r.userId == st.userId && r.pendingAction == st.pendingAction && r.openBuyNow == st.openBuyNow
  {
    st.(user := Missing, token := None)
  }

  // ---------------------------------------------------------------------
  // Properties across pages
  // ---------------------------------------------------------------------

  /** A visitor who asks to buy a product, signs in and confirms gets the
      buy form on that product's card, and only there. */
  lemma BuyNowRoundTrip(st: Storage, productId: Id, user: ClientUser, token: string, other: Id)
    requires Renders(st.user) && SignedInId(st.user).None?
    requires other != productId
    ensures var s1 := RequestAction(st, BuyNow, productId).storage;
            var login := LoginSucceeded(s1, user, token);
            var s3 := BuyNowOk(login.storage);
            && login.modal == BuyNowPrompt
            && !ConsumeOpenBuyNow(s3, other).opensBuyForm
            && ConsumeOpenBuyNow(s3, productId).opensBuyForm
            && ConsumeOpenBuyNow(s3, productId).storage.openBuyNow.None?
            && ConsumeOpenBuyNow(s3, productId).storage.pendingAction.None?
  {
  }

  /** A visitor who asks to add a product to the cart and signs in gets the
      cart prompt; confirming sends the add for that product as the new user
      and forgets the action only if the request went through. */
  lemma AddToCartRoundTrip(st: Storage, productId: Id, user: ClientUser, token: string, added: bool)
    requires Renders(st.user) && SignedInId(st.user).None?
    ensures var s1 := RequestAction(st, AddToCart, productId).storage;
            var login := LoginSucceeded(s1, user, token);
            var ok := CartOk(login.storage, added);
            && login.modal == CartPrompt
            && ok.request == Some(CartAddRequest(user.id, productId))
            && (ok.storage.pendingAction.None? <==> added)
  {
  }

  /** With a boolean `isAdmin` and no `role` of "admin", the login page and
      the navigation bar agree on who is an administrator. */
  lemma AdminTestsAgreeOnBooleans(slot: UserSlot)
    requires slot.Stored? && slot.user.isAdmin.Bool? && slot.user.role != Some("admin")
    ensures LoginTarget(slot) == Some("/admin") <==> NavbarIsAdmin(slot)
  {
  }

  /** Signing in puts the user in the navigation bar; signing out takes it
      away again, and with it the admin link. */
  lemma SignInThenOut(st: Storage, user: ClientUser, token: string)
    ensures var signedIn := LoginSucceeded(st, user, token).storage;
            && NavbarUser(signedIn.user) == Some(user)
            && NavbarUser(Logout(signedIn).user).None?
            && !NavbarIsAdmin(Logout(signedIn).user)
            && Logout(signedIn).pendingAction == st.pendingAction
  {
  }

  /** Where the login page and the profile link agree on who is an
      administrator, the link leads where the login page navigates. */
  lemma ProfileLinkIsLoginTarget(slot: UserSlot)
    requires slot.Stored? && slot.user.isAdmin.Bool? && slot.user.role != Some("admin")
    ensures LoginTarget(slot) == Some(ProfileLink(slot))
  {
    AdminTestsAgreeOnBooleans(slot);
  }

  /** Once a login reply without a user has stored the text `undefined`,
      the product pages fail while rendering: a click remembers nothing and
      asks for nothing. */
  lemma UndefinedUserBlocksProductPages(st: Storage, kind: ActionType, productId: Id)
    requires st.user == UndefinedText
    ensures RequestAction(st, kind, productId) == ClickResult(st, PageFailed)
    ensures LoginTarget(st.user).None?
  {
  }

  /** They disagree otherwise: a user whose role is "admin" but whose flag
      is false is an administrator to the navigation bar and is sent to the
      user dashboard by the login page; a truthy non-boolean flag is the
      reverse. */
  lemma AdminTestsDisagree()
    ensures var roleOnly := Stored(ClientUser(Some(1), Some("admin"), Bool(false), None));
            NavbarIsAdmin(roleOnly) && LoginTarget(roleOnly) == Some("/dashboard")
    ensures var truthyFlag := Stored(ClientUser(Some(1), None, Text("yes"), None));
            !NavbarIsAdmin(truthyFlag) && LoginTarget(truthyFlag) == Some("/admin")
  {
  }
}
