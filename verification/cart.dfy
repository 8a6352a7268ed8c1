/** The cart store: the `/api/cart` routes (add with check-then-insert
    de-duplication, list, remove one item, clear) and the cart controller's
    three handlers. Populating an entry's product is a lookup in the product
    collection that yields null for a dangling reference. */
module Cart {
  import opened Models

  /** A cart entry as replied: the entry with its product populated. */
  datatype CartItem = CartItem(entry: CartEntry, product: Option<Product>)

  predicate IsPair(e: CartEntry, user: Id, product: Id)
  {
    e.user == user && e.product == product
  }

  /** `Cart.findOne({ user, product })` finds something. */
  predicate HasPair(carts: seq<CartEntry>, user: Id, product: Id)
  {
    exists i :: 0 <= i < |carts| && IsPair(carts[i], user, product)
  }

  /** The central invariant: no (user, product) pair occurs twice. */
  predicate NoDuplicatePairs(carts: seq<CartEntry>)
  {
    forall i, j :: 0 <= i < j < |carts| ==>
      !(carts[i].user == carts[j].user && carts[i].product == carts[j].product)
  }

  /** Number of entries for a (user, product) pair. */
  function PairCount(carts: seq<CartEntry>, user: Id, product: Id): nat
  {
    if |carts| == 0 then 0
    else (if IsPair(carts[0], user, product) then 1 else 0) + PairCount(carts[1..], user, product)
  }

  /** `Cart.find({ user })`: the user's entries in store order. */
  function CartOf(carts: seq<CartEntry>, user: Id): (r: seq<CartEntry>)
    ensures |r| <= |carts|
    ensures forall e :: e in r <==> e in carts && e.user == user
  {
    if |carts| == 0 then []
    else if carts[0].user == user then [carts[0]] + CartOf(carts[1..], user)
    else CartOf(carts[1..], user)
  }

  function Populate(entries: seq<CartEntry>, products: seq<Product>): (r: seq<CartItem>)
    ensures |r| == |entries|
    ensures forall i :: 0 <= i < |r| ==> r[i].entry == entries[i]
  {
    seq(|entries|, i requires 0 <= i < |entries| =>
      CartItem(entries[i], FindProduct(products, entries[i].product)))
  }

  function Entries(items: seq<CartItem>): seq<CartEntry>
  {
    seq(|items|, i requires 0 <= i < |items| => items[i].entry)
  }

  // ---------------------------------------------------------------------
  // POST /add
  // ---------------------------------------------------------------------

  const AlreadyInCart := "Already in cart"

  /** Check-then-insert add. A missing user or product id matches no stored
      entry (every entry has both references) and then fails the schema's
      required check on save, which the handler reports as a 500. */
  function Add(db: Db, userId: Option<Id>, productId: Option<Id>, newId: Id, now: int): (r: Outcome<CartItem>)
    ensures userId.None? || productId.None? ==>
      r == Outcome(db, Response(500, Message("Failed to add item to cart")))
    ensures userId.Some? && productId.Some? && HasPair(db.carts, userId.value, productId.value) ==>
      r == Outcome(db, Response(200, Message(AlreadyInCart)))
    ensures userId.Some? && productId.Some? && !HasPair(db.carts, userId.value, productId.value) ==>
      var e := CartEntry(newId, userId.value, productId.value, now);
      && r.db == db.(carts := db.carts + [e])
      && r.response == Response(200, Json(CartItem(e, FindProduct(db.products, productId.value))))
    ensures r.db.users == db.users && r.db.products == db.products && r.db.orders == db.orders
    ensures NoDuplicatePairs(db.carts) ==> NoDuplicatePairs(r.db.carts)
  {
    if userId.None? || productId.None? then
      Outcome(db, Response(500, Message("Failed to add item to cart")))
    else if HasPair(db.carts, userId.value, productId.value) then
      Outcome(db, Response(200, Message(AlreadyInCart)))
    else
      var e := CartEntry(newId, userId.value, productId.value, now);
      AppendKeepsNoDuplicates(db.carts, e);
      Outcome(db.(carts := db.carts + [e]),
              Response(200, Json(CartItem(e, FindProduct(db.products, productId.value)))))
  }

  lemma AppendKeepsNoDuplicates(carts: seq<CartEntry>, e: CartEntry)
    requires !HasPair(carts, e.user, e.product)
    ensures NoDuplicatePairs(carts) ==> NoDuplicatePairs(carts + [e])
  {
    var s := carts + [e];
    if NoDuplicatePairs(carts) {
      forall i, j | 0 <= i < j < |s|
        ensures !(s[i].user == s[j].user && s[i].product == s[j].product)
      {
        if j == |carts| {
          assert s[i] == carts[i];
          assert !IsPair(carts[i], e.user, e.product);
        } else {
          assert s[i] == carts[i] && s[j] == carts[j];
        }
      }
    }
  }

  // ---------------------------------------------------------------------
  // GET /:userId and GET /user/:userId (identical handlers), and the
  // controller's getCartByUser
  // ---------------------------------------------------------------------

  /** The user's entries, in store order, each with its product populated. */
  function ListCart(db: Db, user: Id): (r: Response<seq<CartItem>>)
    ensures r.status == 200 && r.body.Json?
    ensures Entries(r.body.value) == CartOf(db.carts, user)
    ensures forall it :: it in r.body.value ==>
      it.entry in db.carts && it.entry.user == user && it.product == FindProduct(db.products, it.entry.product)
  {
    var items := Populate(CartOf(db.carts, user), db.products);
    assert Entries(items) == CartOf(db.carts, user);
    Response(200, Json(items))
  }

  // ---------------------------------------------------------------------
  // DELETE /item/:productId/:userId and the controller's removeCartItem
  // ---------------------------------------------------------------------

  /** Position of the first entry matching the pair. */
  function FirstPair(carts: seq<CartEntry>, user: Id, product: Id): (r: Option<nat>)
    ensures r.Some? ==> r.value < |carts| && IsPair(carts[r.value], user, product)
    ensures r.Some? ==> forall j :: 0 <= j < r.value ==> !IsPair(carts[j], user, product)
    ensures r.None? ==> forall j :: 0 <= j < |carts| ==> !IsPair(carts[j], user, product)
  {
    if |carts| == 0 then None
    else if IsPair(carts[0], user, product) then Some(0)
    else
      match FirstPair(carts[1..], user, product)
      case None => None
      case Some(k) => Some(k + 1)
  }

  /** The store without the first entry matching the pair: at most one entry
      is deleted, whether by `findOneAndDelete` or by `deleteOne`. */
  function RemoveFirstPair(carts: seq<CartEntry>, user: Id, product: Id): seq<CartEntry>
  {
    match FirstPair(carts, user, product)
    case None => carts
    case Some(i) => RemoveAt(carts, i)
  }

  /** DELETE /item/:productId/:userId. Replies the same message whether or
      not an entry matched; nothing outside the cart collection changes. */
  function RemoveItem(db: Db, productId: Id, userId: Id): (r: Outcome<CartItem>)
    ensures r.response == Response(200, Message("Removed from cart"))
    ensures r.db.users == db.users && r.db.products == db.products && r.db.orders == db.orders
    ensures FirstPair(db.carts, userId, productId).None? ==> r.db.carts == db.carts
    ensures FirstPair(db.carts, userId, productId).Some? ==>
      r.db.carts == RemoveAt(db.carts, FirstPair(db.carts, userId, productId).value)
    ensures |r.db.carts| == |db.carts| - (if HasPair(db.carts, userId, productId) then 1 else 0)
  {
    Outcome(db.(carts := RemoveFirstPair(db.carts, userId, productId)),
            Response(200, Message("Removed from cart")))
  }

  /** The controller's removeCartItem: same store effect, its own message. */
  function RemoveCartItem(db: Db, productId: Id, userId: Id): (r: Outcome<CartItem>)
    ensures r.response == Response(200, Message("Item removed from cart"))
    ensures r.db == RemoveItem(db, productId, userId).db
  {
    Outcome(db.(carts := RemoveFirstPair(db.carts, userId, productId)),
            Response(200, Message("Item removed from cart")))
  }

  // ---------------------------------------------------------------------
  // DELETE /clear/:userId and the controller's clearCart
  // ---------------------------------------------------------------------

  /** `deleteMany({ user })`: the entries of every other user, in order. */
  function WithoutUser(carts: seq<CartEntry>, user: Id): (r: seq<CartEntry>)
    ensures |r| <= |carts|
    ensures forall e :: e in r <==> e in carts && e.user != user
  {
    if |carts| == 0 then []
    else if carts[0].user != user then [carts[0]] + WithoutUser(carts[1..], user)
    else WithoutUser(carts[1..], user)
  }

  /** Both the route and the controller reply "Cart cleared" with 200. */
  function ClearCart(db: Db, user: Id): (r: Outcome<CartItem>)
    ensures r.response == Response(200, Message("Cart cleared"))
    ensures r.db == db.(carts := WithoutUser(db.carts, user))
    ensures CartOf(r.db.carts, user) == []
    ensures NoDuplicatePairs(db.carts) ==> NoDuplicatePairs(r.db.carts)
  {
    var rest := WithoutUser(db.carts, user);
    ClearedListsNothing(db.carts, user);
    WithoutUserKeepsNoDuplicates(db.carts, user);
    Outcome(db.(carts := rest), Response(200, Message("Cart cleared")))
  }

  // ---------------------------------------------------------------------
  // Properties relating several requests
  // ---------------------------------------------------------------------

  lemma {:induction false} NoDuplicatesBoundCount(carts: seq<CartEntry>, user: Id, product: Id)
    requires NoDuplicatePairs(carts)
    ensures PairCount(carts, user, product) <= 1
    ensures PairCount(carts, user, product) == 1 <==> HasPair(carts, user, product)
  {
    if |carts| > 0 {
      var tail := carts[1..];
      assert NoDuplicatePairs(tail) by {
        forall i, j | 0 <= i < j < |tail|
          ensures !(tail[i].user == tail[j].user && tail[i].product == tail[j].product)
        {
          assert tail[i] == carts[i + 1] && tail[j] == carts[j + 1];
        }
      }
      NoDuplicatesBoundCount(tail, user, product);
      HasPairCons(carts, user, product);
      if IsPair(carts[0], user, product) {
        forall k | 0 <= k < |tail|
          ensures !IsPair(tail[k], user, product)
        {
          assert tail[k] == carts[k + 1];
        }
      }
    }
  }

  lemma HasPairCons(carts: seq<CartEntry>, user: Id, product: Id)
    requires |carts| > 0
    ensures HasPair(carts, user, product) <==>
      IsPair(carts[0], user, product) || HasPair(carts[1..], user, product)
  {
    if HasPair(carts, user, product) && !IsPair(carts[0], user, product) {
      var i :| 0 <= i < |carts| && IsPair(carts[i], user, product);
      assert carts[1..][i - 1] == carts[i];
    }
    if HasPair(carts[1..], user, product) {
      var k :| 0 <= k < |carts[1..]| && IsPair(carts[1..][k], user, product);
      assert carts[k + 1] == carts[1..][k];
    }
  }

  /** Two sequential adds of one pair leave exactly one entry for it, and the
      second add replies "Already in cart" without touching the store. */
  lemma AddTwice(db: Db, user: Id, product: Id, newId1: Id, newId2: Id, now1: int, now2: int)
    requires NoDuplicatePairs(db.carts)
    ensures var first := Add(db, Some(user), Some(product), newId1, now1);
            var second := Add(first.db, Some(user), Some(product), newId2, now2);
            && second.db == first.db
            && second.response == Response(200, Message(AlreadyInCart))
            && PairCount(second.db.carts, user, product) == 1
  {
    var first := Add(db, Some(user), Some(product), newId1, now1);
    if !HasPair(db.carts, user, product) {
      var e := CartEntry(newId1, user, product, now1);
      assert first.db.carts[|db.carts|] == e;
    }
    assert HasPair(first.db.carts, user, product);
    NoDuplicatesBoundCount(first.db.carts, user, product);
  }

  lemma {:induction false} CartOfAppend(a: seq<CartEntry>, b: seq<CartEntry>, user: Id)
    ensures CartOf(a + b, user) == CartOf(a, user) + CartOf(b, user)
  {
    if |a| == 0 {
      assert a + b == b;
    } else {
      assert (a + b)[1..] == a[1..] + b;
      CartOfAppend(a[1..], b, user);
    }
  }

  /** A successful add is visible at the end of its user's listing and is
      invisible in every other user's listing. */
  lemma ListAfterAdd(db: Db, user: Id, product: Id, other: Id, newId: Id, now: int)
    requires !HasPair(db.carts, user, product)
    requires other != user
    ensures var r := Add(db, Some(user), Some(product), newId, now);
            && CartOf(r.db.carts, user) == CartOf(db.carts, user) + [CartEntry(newId, user, product, now)]
            && CartOf(r.db.carts, other) == CartOf(db.carts, other)
  {
    var e := CartEntry(newId, user, product, now);
    CartOfAppend(db.carts, [e], user);
    CartOfAppend(db.carts, [e], other);
    assert CartOf([e], user) == [e] + CartOf([], user);
    assert CartOf([e], other) == CartOf([], other);
  }

  /** Removing a pair from a duplicate-free store leaves no entry for it and
      keeps the store duplicate-free. */
  lemma RemoveLeavesNoPair(carts: seq<CartEntry>, user: Id, product: Id)
    requires NoDuplicatePairs(carts)
    ensures !HasPair(RemoveFirstPair(carts, user, product), user, product)
    ensures NoDuplicatePairs(RemoveFirstPair(carts, user, product))
  {
    var r := RemoveFirstPair(carts, user, product);
    if FirstPair(carts, user, product).Some? {
      var i := FirstPair(carts, user, product).value;
      forall k | 0 <= k < |r|
        ensures !IsPair(r[k], user, product)
      {
        var k' := if k < i then k else k + 1;
        assert r[k] == carts[k'] && k' != i;
      }
      forall a, b | 0 <= a < b < |r|
        ensures !(r[a].user == r[b].user && r[a].product == r[b].product)
      {
        var a' := if a < i then a else a + 1;
        var b' := if b < i then b else b + 1;
        assert r[a] == carts[a'] && r[b] == carts[b'] && a' < b';
      }
    }
  }

  /** Removal touches no other pair: every other (user, product) pair keeps
      its exact number of entries. */
  lemma {:induction false} RemoveKeepsOtherPairs(carts: seq<CartEntry>, user: Id, product: Id, u: Id, p: Id)
    requires (u, p) != (user, product)
    ensures PairCount(RemoveFirstPair(carts, user, product), u, p) == PairCount(carts, u, p)
  {
    if |carts| > 0 {
      var rest := RemoveFirstPair(carts[1..], user, product);
      RemoveKeepsOtherPairs(carts[1..], user, product, u, p);
      RemoveFirstPairCons(carts, user, product);
      if !IsPair(carts[0], user, product) {
        assert ([carts[0]] + rest)[1..] == rest;
      }
    }
  }

  lemma RemoveFirstPairCons(carts: seq<CartEntry>, user: Id, product: Id)
    requires |carts| > 0
    ensures IsPair(carts[0], user, product) ==> RemoveFirstPair(carts, user, product) == carts[1..]
    ensures !IsPair(carts[0], user, product) ==>
      RemoveFirstPair(carts, user, product) == [carts[0]] + RemoveFirstPair(carts[1..], user, product)
  {
    if !IsPair(carts[0], user, product) {
      match FirstPair(carts[1..], user, product)
      case None =>
      case Some(k) =>
        assert RemoveAt(carts, k + 1) == [carts[0]] + RemoveAt(carts[1..], k);
    }
  }

  /** Clearing only touches the given user's entries. */
  lemma {:induction false} ClearKeepsOtherUsers(carts: seq<CartEntry>, user: Id, other: Id)
    requires other != user
    ensures CartOf(WithoutUser(carts, user), other) == CartOf(carts, other)
  {
    if |carts| > 0 {
      ClearKeepsOtherUsers(carts[1..], user, other);
      if carts[0].user != user {
        var rest := WithoutUser(carts[1..], user);
        assert ([carts[0]] + rest)[1..] == rest;
      }
    }
  }

  /** Clearing is idempotent: the second clear changes nothing and still
      replies "Cart cleared". */
  lemma ClearIdempotent(db: Db, user: Id)
    ensures ClearCart(ClearCart(db, user).db, user) == ClearCart(db, user)
  {
    var once := WithoutUser(db.carts, user);
    WithoutUserFixpoint(once, user);
  }

  lemma {:induction false} WithoutUserFixpoint(carts: seq<CartEntry>, user: Id)
    requires forall e :: e in carts ==> e.user != user
    ensures WithoutUser(carts, user) == carts
  {
    if |carts| > 0 {
      assert carts[0] in carts;
      assert forall e :: e in carts[1..] ==> e in carts;
      WithoutUserFixpoint(carts[1..], user);
      assert [carts[0]] + carts[1..] == carts;
    }
  }

  /** Clearing keeps a duplicate-free cart duplicate-free. */
  lemma {:induction false} WithoutUserKeepsNoDuplicates(carts: seq<CartEntry>, user: Id)
    ensures NoDuplicatePairs(carts) ==> NoDuplicatePairs(WithoutUser(carts, user))
  {
    if |carts| > 0 && NoDuplicatePairs(carts) {
      var tail := carts[1..];
      assert NoDuplicatePairs(tail) by {
        forall i, j | 0 <= i < j < |tail|
          ensures !(tail[i].user == tail[j].user && tail[i].product == tail[j].product)
        {
          assert tail[i] == carts[i + 1] && tail[j] == carts[j + 1];
        }
      }
      WithoutUserKeepsNoDuplicates(tail, user);
      if carts[0].user != user {
        var rest := WithoutUser(tail, user);
        var r := [carts[0]] + rest;
        forall i, j | 0 <= i < j < |r|
          ensures !(r[i].user == r[j].user && r[i].product == r[j].product)
        {
          if i == 0 {
            assert r[j] == rest[j - 1] && rest[j - 1] in tail;
            var k :| 0 <= k < |tail| && tail[k] == rest[j - 1];
            assert carts[k + 1] == tail[k];
          } else {
            assert r[i] == rest[i - 1] && r[j] == rest[j - 1];
          }
        }
      }
    }
  }

  lemma {:induction false} ClearedListsNothing(carts: seq<CartEntry>, user: Id)
    ensures CartOf(WithoutUser(carts, user), user) == []
  {
    if |carts| > 0 {
      ClearedListsNothing(carts[1..], user);
      if carts[0].user != user {
        var rest := WithoutUser(carts[1..], user);
        assert ([carts[0]] + rest)[1..] == rest;
      }
    }
  }
}
