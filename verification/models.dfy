/** The four document collections of the store (accounts, products, cart
    entries, orders), the order-status enumeration, and the reply shape every
    request handler produces.

    Identifiers are natural numbers; the database driver's identifier
    generation and its clock are parameters of the operations that create
    records (`newId`, `now`). */
module Models {

  datatype Option<+T> = None | Some(value: T)

  type Id = nat

  // ---------------------------------------------------------------------
  // JavaScript truthiness of request-body values
  // ---------------------------------------------------------------------

  /** A body string is falsy when it is absent (undefined/null) or empty. */
  predicate Truthy(s: Option<string>)
  {
    s.Some? && s.value != ""
  }

  /** `x || old` on a string field. */
  function OrString(x: Option<string>, stored: string): string
  {
    if Truthy(x) then x.value else stored
  }

  /** `x || old` on a numeric field: absent and 0 are falsy. */
  function OrNumber(x: Option<int>, stored: int): int
  {
    if x.Some? && x.value != 0 then x.value else stored
  }

  /** `x ?? old`: only an absent (undefined/null) value falls back. */
  function Coalesce<T>(x: Option<T>, stored: T): T
  {
    if x.Some? then x.value else stored
  }

  /** An update that Mongoose applies with undefined keys stripped:
      absent keeps the stored value, anything supplied overwrites it. */
  function Overwrite<T>(x: Option<T>, stored: T): T
  {
    if x.Some? then x.value else stored
  }

  // ---------------------------------------------------------------------
  // Numbers sent as multipart text
  // ---------------------------------------------------------------------

  predicate IsDigit(c: char)
  {
    '0' <= c <= '9'
  }

  predicate AllDigits(s: string)
  {
    forall i :: 0 <= i < |s| ==> IsDigit(s[i])
  }

  /** The value of a string of decimal digits. */
  function DigitsValue(s: string): nat
    requires AllDigits(s)
  {
    if |s| == 0 then 0
    else DigitsValue(s[..|s| - 1]) * 10 + (s[|s| - 1] as int - '0' as int)
  }

  /** The schema's cast of a text field to a number, on decimal integer
      text: an optional minus sign and at least one digit. Any other text
      fails the cast. */
  function CastNumber(t: string): (r: Option<int>)
    ensures r.Some? && |t| > 0 && t[0] == '-' ==> AllDigits(t[1..]) && r.value == -(DigitsValue(t[1..]) as int)
    ensures r.Some? && (|t| == 0 || t[0] != '-') ==> AllDigits(t) && r.value == DigitsValue(t)
    ensures r.Some? ==> |t| > 0
  {
    if |t| > 0 && t[0] == '-' then
      if |t| > 1 && AllDigits(t[1..]) then Some(-(DigitsValue(t[1..]) as int)) else None
    else if |t| > 0 && AllDigits(t) then Some(DigitsValue(t))
    else None
  }

  function DigitChar(d: nat): char
    requires d < 10
  {
    ('0' as int + d) as char
  }

  /** Decimal digits of a natural number, without leading zeros. */
  function Digits(n: nat): (r: string)
    ensures |r| > 0 && AllDigits(r)
    ensures |r| > 1 ==> r[0] != '0'
  {
    if n < 10 then [DigitChar(n)] else Digits(n / 10) + [DigitChar(n % 10)]
  }

  /** `String(n)` for an integer: how a number travels in a form field. */
  function DecimalText(n: int): string
  {
    if n < 0 then "-" + Digits(-n) else Digits(n)
  }

  lemma {:induction false} DigitsRoundTrip(n: nat)
    ensures DigitsValue(Digits(n)) == n
  {
    if n >= 10 {
      DigitsRoundTrip(n / 10);
      var s := Digits(n);
      assert s[..|s| - 1] == Digits(n / 10);
    }
  }

  /** A number written out as text casts back to itself. */
  lemma DecimalTextRoundTrip(n: int)
    ensures CastNumber(DecimalText(n)) == Some(n)
  {
    if n < 0 {
      DigitsRoundTrip(-n);
      assert DecimalText(n)[1..] == Digits(-n);
    } else {
      DigitsRoundTrip(n);
    }
  }

  // ---------------------------------------------------------------------
  // Order status
  // ---------------------------------------------------------------------

  /** The schema's four-value enumeration; its default is `Pending`. */
  datatype Status = Pending | Shipped | Delivered | Cancelled

  function StatusName(s: Status): string
  {
    match s
    case Pending => "Pending"
    case Shipped => "Shipped"
    case Delivered => "Delivered"
    case Cancelled => "Cancelled"
  }

  /** Enum validation on save: a string is accepted exactly when it spells one
      of the four values (case-sensitive). */
  function ParseStatus(s: string): (r: Option<Status>)
    ensures r.Some? ==> StatusName(r.value) == s
    ensures r.None? ==> forall st: Status :: StatusName(st) != s
  {
    if s == "Pending" then Some(Pending)
    else if s == "Shipped" then Some(Shipped)
    else if s == "Delivered" then Some(Delivered)
    else if s == "Cancelled" then Some(Cancelled)
    else None
  }

  // ---------------------------------------------------------------------
  // Records
  // ---------------------------------------------------------------------

  /** A stored password. The salted hash is abstracted as an injective
      constructor: two passwords hash alike exactly when they are equal. */
  datatype Password = Hashed(plain: string)

  datatype User = User(
    id: Id,
    name: string,
    email: string,
    password: Password,
    address: Option<string>,
    profileImage: Option<string>,
    isAdmin: bool)

  datatype Product = Product(
    id: Id,
    name: string,
    price: int,
    description: string,
    image: Option<string>,
    createdAt: int)

  /** A cart entry: both references are required; nothing in the schema makes
      a (user, product) pair unique. */
  datatype CartEntry = CartEntry(id: Id, user: Id, product: Id, createdAt: int)

  /** An order. Size, design URL, method and address are optional free
      strings; quantity defaults to 1 and no handler sets it otherwise. */
  datatype Order = Order(
    id: Id,
    user: Id,
    product: Id,
    size: Option<string>,
    designUrl: Option<string>,
    deliveryMethod: Option<string>,
    address: Option<string>,
    quantity: int,
    status: Status,
    date: int)

  /** A new order with the schema defaults: quantity 1, date = creation time. */
  function NewOrder(id: Id, user: Id, product: Id, size: Option<string>,
                    designUrl: Option<string>, deliveryMethod: Option<string>,
                    address: Option<string>, status: Status, now: int): Order
  {
    Order(id, user, product, size, designUrl, deliveryMethod, address, 1, status, now)
  }

  datatype Db = Db(
    users: seq<User>,
    products: seq<Product>,
    carts: seq<CartEntry>,
    orders: seq<Order>)

  // ---------------------------------------------------------------------
  // Replies
  // ---------------------------------------------------------------------

  datatype Body<+T> = Message(text: string) | Json(value: T)

  datatype Response<+T> = Response(status: int, body: Body<T>)

  /** A file sent with a multipart request and passed to the image store:
      none sent, uploaded with the returned URL, or the upload failed. */
  datatype Upload = NoFile | Uploaded(url: string) | UploadFailed

  /** The state after a request together with the reply sent. */
  datatype Outcome<+T> = Outcome(db: Db, response: Response<T>)

  // ---------------------------------------------------------------------
  // Lookup by identifier
  // ---------------------------------------------------------------------

  /** The identifier column of each collection. The three records are
      distinct datatypes, so each collection has its own projection; they
      are written alike on purpose. */
  function UserIds(us: seq<User>): (r: seq<Id>)
    ensures |r| == |us|
    ensures forall i :: 0 <= i < |us| ==> r[i] == us[i].id
  {
    seq(|us|, i requires 0 <= i < |us| => us[i].id)
  }

  function ProductIds(ps: seq<Product>): (r: seq<Id>)
    ensures |r| == |ps|
    ensures forall i :: 0 <= i < |ps| ==> r[i] == ps[i].id
  {
    seq(|ps|, i requires 0 <= i < |ps| => ps[i].id)
  }

  function OrderIds(os: seq<Order>): (r: seq<Id>)
    ensures |r| == |os|
    ensures forall i :: 0 <= i < |os| ==> r[i] == os[i].id
  {
    seq(|os|, i requires 0 <= i < |os| => os[i].id)
  }

  /** No identifier occurs twice in a collection. */
  predicate UniqueIds(ids: seq<Id>)
  {
    forall i, j :: 0 <= i < j < |ids| ==> ids[i] != ids[j]
  }

  /** Position of the first record with the given identifier (`findById`). */
  function FindIndex(ids: seq<Id>, id: Id): (r: Option<nat>)
    ensures r.Some? ==> r.value < |ids| && ids[r.value] == id
    ensures r.Some? ==> forall j :: 0 <= j < r.value ==> ids[j] != id
    ensures r.None? <==> id !in ids
    ensures r.None? ==> forall j :: 0 <= j < |ids| ==> ids[j] != id
  {
    if |ids| == 0 then None
    else if ids[0] == id then Some(0)
    else
      match FindIndex(ids[1..], id)
      case None => None
      case Some(k) => Some(k + 1)
  }

  /** The collection without its i-th record (a single-document delete). */
  function RemoveAt<T>(s: seq<T>, i: nat): (r: seq<T>)
    requires i < |s|
    ensures |r| == |s| - 1
    ensures forall j :: 0 <= j < i ==> r[j] == s[j]
    ensures forall j :: i <= j < |r| ==> r[j] == s[j + 1]
  {
    s[..i] + s[i + 1..]
  }

  /** The product a reference resolves to when populated, or null. */
  function FindProduct(ps: seq<Product>, id: Id): (r: Option<Product>)
    ensures r.Some? ==> r.value in ps && r.value.id == id
    ensures r.None? ==> forall i :: 0 <= i < |ps| ==> ps[i].id != id
  {
    match FindIndex(ProductIds(ps), id)
    case None => None
    case Some(i) => Some(ps[i])
  }

  function FindUser(us: seq<User>, id: Id): (r: Option<User>)
    ensures r.Some? ==> r.value in us && r.value.id == id
    ensures r.None? ==> forall i :: 0 <= i < |us| ==> us[i].id != id
  {
    match FindIndex(UserIds(us), id)
    case None => None
    case Some(i) => Some(us[i])
  }

  /** Removing a record from a collection with unique identifiers leaves
      none with that identifier and keeps identifiers unique. */
  lemma {:induction false} RemoveAtUnique(ids: seq<Id>, i: nat)
    requires i < |ids|
    ensures UniqueIds(ids) ==> ids[i] !in RemoveAt(ids, i) && UniqueIds(RemoveAt(ids, i))
  {
    if UniqueIds(ids) { RemoveAtUniqueCase(ids, i); }
  }

  lemma RemoveAtUniqueCase(ids: seq<Id>, i: nat)
    requires i < |ids| && UniqueIds(ids)
    ensures ids[i] !in RemoveAt(ids, i) && UniqueIds(RemoveAt(ids, i))
  {
    var r := RemoveAt(ids, i);
    forall k | 0 <= k < |r|
      ensures r[k] != ids[i]
    {
      if k < i { assert r[k] == ids[k]; } else { assert r[k] == ids[k + 1]; }
    }
    forall a, b | 0 <= a < b < |r|
      ensures r[a] != r[b]
    {
      var a' := if a < i then a else a + 1;
      var b' := if b < i then b else b + 1;
      assert r[a] == ids[a'] && r[b] == ids[b'] && a' < b';
    }
  }
}
