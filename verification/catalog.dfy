/** The public product controller behind `/api/products`: the newest-first
    listing, and the create/update/delete handlers used by the admin form.
    The uploaded image is the upload middleware's file path, or absent. */
module Catalog {
  import opened Models
  import Sorting

  /** Newest first is ascending order of the negated creation time. */
  function NewestFirstKey(p: Product): int
  {
    -p.createdAt
  }

  /** `Product.find().sort({ createdAt: -1 })`: every product, newest first. */
  function GetAllProducts(db: Db): (r: Response<seq<Product>>)
    ensures r.status == 200 && r.body.Json?
    ensures multiset(r.body.value) == multiset(db.products)
    ensures forall i, j :: 0 <= i < j < |r.body.value| ==>
      r.body.value[i].createdAt >= r.body.value[j].createdAt
  {
    var sorted := Sorting.SortBy(db.products, NewestFirstKey);
    assert forall i, j :: 0 <= i < j < |sorted| ==>
      NewestFirstKey(sorted[i]) <= NewestFirstKey(sorted[j]);
    Response(200, Json(sorted))
  }

  const CreateFailed := "Failed to create product"

  /** Create: the image is the uploaded path when a file came, else absent;
      a price text the schema cannot cast fails the save with a 500. */
  function CreateProduct(db: Db, name: string, price: string, description: string, file: Option<string>,
                         newId: Id, now: int): (r: Outcome<Product>)
    ensures CastNumber(price).None? ==> r == Outcome(db, Response(500, Message(CreateFailed)))
    ensures CastNumber(price).Some? ==>
      && r.response.status == 201 && r.response.body.Json?
      && var p := r.response.body.value;
         && p == Product(newId, name, CastNumber(price).value, description, file, now)
         && r.db == db.(products := db.products + [p])
  {
    match CastNumber(price)
    case None => Outcome(db, Response(500, Message(CreateFailed)))
    case Some(n) =>
      var p := Product(newId, name, n, description, file, now);
      Outcome(db.(products := db.products + [p]), Response(201, Json(p)))
  }

  const UpdateFailed := "Failed to update product"

  /** `findByIdAndUpdate(id, { name, price, description, ...(image && { image }) })`.
      Absent body fields are stripped from the update; the image key is only
      present when a file was uploaded. The update is cast before the query
      runs, so a price text that is not a number is a 500 for any id. An
      unknown id replies null with 200. */
  function UpdateProduct(db: Db, id: Id, name: Option<string>, price: Option<string>,
                         description: Option<string>, file: Option<string>): (r: Outcome<Option<Product>>)
    ensures price.Some? && CastNumber(price.value).None? ==> r == Outcome(db, Response(500, Message(UpdateFailed)))
    ensures price.None? || CastNumber(price.value).Some? ==> r.response.status == 200 && r.response.body.Json?
    ensures (price.None? || CastNumber(price.value).Some?) && id !in ProductIds(db.products) ==>
      r == Outcome(db, Response(200, Json(None)))
    ensures (price.None? || CastNumber(price.value).Some?) && id in ProductIds(db.products) ==>
      && r.response.body.value.Some?
      && (exists i :: 0 <= i < |db.products| && db.products[i].id == id &&
            var (p, p') := (db.products[i], r.response.body.value.value);
            && r.db == db.(products := db.products[i := p'])
            && p'.name == (if name.Some? then name.value else p.name)
            && p'.price == (if price.Some? then CastNumber(price.value).value else p.price)
            && p'.description == (if description.Some? then description.value else p.description)
            && p'.image == (if file.Some? && file.value != "" then file else p.image)
            && p'.id == p.id && p'.createdAt == p.createdAt)
  {
    if price.Some? && CastNumber(price.value).None? then Outcome(db, Response(500, Message(UpdateFailed)))
    else
      match FindIndex(ProductIds(db.products), id)
      case None => Outcome(db, Response(200, Json(None)))
      case Some(i) =>
        var p := db.products[i];
        var p' := p.(name := Overwrite(name, p.name),
                     price := if price.Some? then CastNumber(price.value).value else p.price,
                     description := Overwrite(description, p.description),
                     image := if Truthy(file) then file else p.image);
        Outcome(db.(products := db.products[i := p']), Response(200, Json(Some(p'))))
  }

  /** `findByIdAndDelete`; also the admin controller's deleteProduct, whose
      reply and effect are identical. */
  function DeleteProduct(db: Db, id: Id): (r: Outcome<Product>)
    ensures r.response == Response(200, Message("Product deleted"))
    ensures r.db.users == db.users && r.db.carts == db.carts && r.db.orders == db.orders
    ensures id !in ProductIds(db.products) ==> r.db == db
    ensures id in ProductIds(db.products) ==>
      r.db.products == RemoveAt(db.products, FindIndex(ProductIds(db.products), id).value)
    ensures id in ProductIds(db.products) ==> |r.db.products| == |db.products| - 1
    ensures UniqueIds(ProductIds(db.products)) ==> id !in ProductIds(r.db.products)
  {
    match FindIndex(ProductIds(db.products), id)
    case None => Outcome(db, Response(200, Message("Product deleted")))
    case Some(i) =>
      var rest := RemoveAt(db.products, i);
      assert ProductIds(rest) == RemoveAt(ProductIds(db.products), i);
      RemoveAtUnique(ProductIds(db.products), i);
      Outcome(db.(products := rest), Response(200, Message("Product deleted")))
  }

  /** A created product joins the public listing: the listing afterwards
      holds exactly the earlier products and the new one. */
  lemma CreatedProductListed(db: Db, name: string, price: string, description: string, file: Option<string>,
                             newId: Id, now: int)
    requires CastNumber(price).Some?
    ensures var r := CreateProduct(db, name, price, description, file, newId, now);
            multiset(GetAllProducts(r.db).body.value) ==
              multiset(GetAllProducts(db).body.value) + multiset{r.response.body.value}
  {
  }

  /** A product created with a new identifier is found again by that
      identifier with every field as supplied. */
  lemma CreateThenFind(db: Db, name: string, price: int, description: string, file: Option<string>,
                       newId: Id, now: int)
    requires newId !in ProductIds(db.products)
    ensures var r := CreateProduct(db, name, DecimalText(price), description, file, newId, now);
            FindProduct(r.db.products, newId) == Some(Product(newId, name, price, description, file, now))
  {
    DecimalTextRoundTrip(price);
    var r := CreateProduct(db, name, DecimalText(price), description, file, newId, now);
    var ps := r.db.products;
    assert ProductIds(ps) == ProductIds(db.products) + [newId];
    forall j | 0 <= j < |db.products|
      ensures ProductIds(ps)[j] != newId
    {
      assert ProductIds(ps)[j] == ProductIds(db.products)[j];
    }
    assert ProductIds(ps)[|db.products|] == newId;
  }
}
