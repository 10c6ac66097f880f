/** Each route of the product service as a function of the store: the
    response it sends and the store it leaves behind. The stateful store in
    module Server performs these same steps in place. */
module Routes {
  import opened Wrappers
  import opened Catalogue
  import opened Errors
  import opened Middleware
  import opened Query
  import opened Stats

  /** What a route produces: its response and the new store. */
  datatype Handled = Handled(response: Response, products: seq<Product>)

  /** `findIndex` on the id: the first position holding `id`, or -1. */
  function FindIndex(ps: seq<Product>, id: string): (i: int)
    ensures -1 <= i < |ps|
    ensures 0 <= i ==> ps[i].id == id
    ensures forall k :: 0 <= k < |ps| && (i == -1 || k < i) ==> ps[k].id != id
    decreases |ps|
  {
    if ps == [] then -1
    else if ps[0].id == id then 0
    else
      var i := FindIndex(ps[1..], id);
      if i == -1 then -1 else i + 1
  }

  /** The search finds something exactly when the id is in the store. */
  lemma FindIndexFound(ps: seq<Product>, id: string)
    ensures FindIndex(ps, id) != -1 <==> id in Ids(ps)
  {
    var i := FindIndex(ps, id);
    if i != -1 {
      assert ps[i] in ps;
    }
    if id in Ids(ps) {
      var p :| p in ps && p.id == id;
      var k :| 0 <= k < |ps| && ps[k] == p;
    }
  }

  /** The 404 response every route sends for an unknown id. */
  function NotFound(): (r: Response)
    ensures r == Response(404, Problem(ProductNotFound))
  {
    HandleError(NotFoundError(ProductNotFound))
  }

  /** GET /api/products/:id. */
  function GetProduct(ps: seq<Product>, id: string): (r: Response)
    ensures r.status == 200 || r == NotFound()
    ensures r.status == 200 <==> id in Ids(ps)
    ensures r.status == 200 ==> r.payload.Item? && r.payload.product in ps
                                && r.payload.product.id == id
  {
    FindIndexFound(ps, id);
    var i := FindIndex(ps, id);
    if i == -1 then NotFound() else Response(200, Item(ps[i]))
  }

  /** POST /api/products: authenticate, validate, then append a record with
      the freshly generated id `freshId`, which the id generator guarantees
      not to be in the store already. */
  function CreateProduct(ps: seq<Product>, auth: Option<string>, body: Body, freshId: string)
    : (h: Handled)
    requires freshId !in Ids(ps)
    ensures h.response.status == 401 <==> !Authenticate(auth)
    ensures h.response.status == 400 <==> Authenticate(auth) && ValidateProduct(body).Fail?
    ensures h.response.status in {201, 400, 401}
    ensures h.response.status == 401 ==> h.response == Unauthorized()
    ensures h.response.status == 400 ==> h.response == Response(400, Problem(AllFieldsRequired))
    ensures h.response.status != 201 ==> h.products == ps
    ensures h.response.status == 201 ==>
      && |h.products| == |ps| + 1
      && h.products[..|ps|] == ps
      && h.response.payload == Item(h.products[|ps|])
      && h.products[|ps|].id !in Ids(ps)
      && ToBody(h.products[|ps|]) == body
  {
    if !Authenticate(auth) then Handled(Unauthorized(), ps)
    else
      match ValidateProduct(body)
      case Fail(e) => Handled(HandleError(e), ps)
      case Pass =>
        var created := MakeProduct(freshId, body);
        Handled(Response(201, Item(created)), ps + [created])
  }

  /** PUT /api/products/:id: authenticate, validate, find the first record
      with the id and replace it, keeping the id from the path. */
  function UpdateProduct(ps: seq<Product>, auth: Option<string>, id: string, body: Body)
    : (h: Handled)
    ensures h.response.status == 401 <==> !Authenticate(auth)
    ensures h.response.status == 400 <==> Authenticate(auth) && ValidateProduct(body).Fail?
    ensures h.response.status == 404 <==>
      Authenticate(auth) && ValidateProduct(body).Pass? && id !in Ids(ps)
    ensures h.response.status in {200, 400, 401, 404}
    ensures h.response.status == 401 ==> h.response == Unauthorized()
    ensures h.response.status == 400 ==> h.response == Response(400, Problem(AllFieldsRequired))
    ensures h.response.status == 404 ==> h.response == NotFound()
    ensures h.response.status != 200 ==> h.products == ps
    ensures h.response.status == 200 ==>
      var i := FindIndex(ps, id);
      && 0 <= i && |h.products| == |ps|
      && h.products[i].id == id
      && ToBody(h.products[i]) == body
      && h.response.payload == Item(h.products[i])
      && forall k :: 0 <= k < |ps| && k != i ==> h.products[k] == ps[k]
  {
    if !Authenticate(auth) then Handled(Unauthorized(), ps)
    else
      match ValidateProduct(body)
      case Fail(e) => Handled(HandleError(e), ps)
      case Pass =>
        FindIndexFound(ps, id);
        var i := FindIndex(ps, id);
        if i == -1 then Handled(NotFound(), ps)
        else
          var updated := MakeProduct(id, body);
          Handled(Response(200, Item(updated)), ps[i := updated])
  }

  const DeletedMessage: string := "Product deleted"

  /** DELETE /api/products/:id: authenticate, find the first record with the
      id and splice it out, answering with the removed record. */
  function DeleteProduct(ps: seq<Product>, auth: Option<string>, id: string): (h: Handled)
    ensures h.response.status == 401 <==> !Authenticate(auth)
    ensures h.response.status == 404 <==> Authenticate(auth) && id !in Ids(ps)
    ensures h.response.status in {200, 401, 404}
    ensures h.response.status == 401 ==> h.response == Unauthorized()
    ensures h.response.status == 404 ==> h.response == NotFound()
    ensures h.response.status != 200 ==> h.products == ps
    ensures h.response.status == 200 ==>
      && 0 <= FindIndex(ps, id)
      && h.response.payload == Removed(DeletedMessage, ps[FindIndex(ps, id)])
      && h.products == RemoveAt(ps, FindIndex(ps, id))
  {
    if !Authenticate(auth) then Handled(Unauthorized(), ps)
    else
      FindIndexFound(ps, id);
      var i := FindIndex(ps, id);
      if i == -1 then Handled(NotFound(), ps)
      else Handled(Response(200, Removed(DeletedMessage, ps[i])), RemoveAt(ps, i))
  }

  /** `splice(i, 1)`: the store without the record at position `i`. The
      other records keep their order and exactly that record is lost. */
  function RemoveAt(ps: seq<Product>, i: int): (after: seq<Product>)
    requires 0 <= i < |ps|
    ensures after == ps[..i] + ps[i + 1..]
    ensures |after| == |ps| - 1
    ensures forall k :: 0 <= k < |after| ==> after[k] == ps[if k < i then k else k + 1]
    ensures multiset(after) + multiset{ps[i]} == multiset(ps)
  {
    assert ps == ps[..i] + [ps[i]] + ps[i + 1..];
    ps[..i] + ps[i + 1..]
  }

  /** Removing a record from a store with unique ids keeps them unique, and
      the removed id is then absent. */
  lemma RemoveAtKeepsUnique(ps: seq<Product>, i: int)
    requires 0 <= i < |ps| && UniqueIds(ps)
    ensures UniqueIds(RemoveAt(ps, i))
    ensures ps[i].id !in Ids(RemoveAt(ps, i))
  {
    var after := RemoveAt(ps, i);
    forall p | p in after
      ensures p.id != ps[i].id
    {
      var k :| 0 <= k < |after| && after[k] == p;
    }
  }

  /** Every route keeps the store well formed: a create, because the
      generated id is new and the body passed validation. */
  lemma CreateKeepsWellFormed(ps: seq<Product>, auth: Option<string>, body: Body, freshId: string)
    requires freshId !in Ids(ps) && WellFormed(ps)
    ensures WellFormed(CreateProduct(ps, auth, body, freshId).products)
  {
    var h := CreateProduct(ps, auth, body, freshId);
    if h.response.status == 201 {
      assert forall k :: 0 <= k < |ps| ==> ps[k] in ps;
      assert h.products == ps + [h.products[|ps|]];
    }
  }

  /** An update keeps the store well formed: the replaced record keeps its
      id and the new one passed validation. */
  lemma UpdateKeepsWellFormed(ps: seq<Product>, auth: Option<string>, id: string, body: Body)
    requires WellFormed(ps)
    ensures WellFormed(UpdateProduct(ps, auth, id, body).products)
  {
    var h := UpdateProduct(ps, auth, id, body);
    if h.response.status == 200 {
      var i := FindIndex(ps, id);
      assert forall p :: p in h.products ==> p == h.products[i] || p in ps;
    }
  }

  /** A delete keeps the store well formed. */
  lemma DeleteKeepsWellFormed(ps: seq<Product>, auth: Option<string>, id: string)
    requires WellFormed(ps)
    ensures WellFormed(DeleteProduct(ps, auth, id).products)
  {
    if DeleteProduct(ps, auth, id).response.status == 200 {
      var i := FindIndex(ps, id);
      RemoveAtKeepsUnique(ps, i);
      var after := RemoveAt(ps, i);
      forall p | p in after
        ensures Storable(p)
      {
        var k :| 0 <= k < |after| && after[k] == p;
        assert p in ps;
      }
    }
  }

  /** GET /api/products/stats/category-count. */
  function CategoryStats(ps: seq<Product>): (r: Response)
    ensures r.status == 200 && r.payload.Counts?
    ensures forall c :: c in r.payload.stats <==> Count(ps, c) > 0
    ensures forall c :: c in r.payload.stats ==> r.payload.stats[c] == Count(ps, c)
  {
    TallyCounts(ps);
    Response(200, Counts(Tally(ps)))
  }

  /** The statistics' counts add up to the size of the store. */
  lemma StatsAddUp(ps: seq<Product>)
    ensures MapSum(CategoryStats(ps).payload.stats) == |ps|
  {
    TallySumsToSize(ps);
  }

  /** After a successful create, reading the new id gives the new record. */
  lemma CreatedIsFound(ps: seq<Product>, auth: Option<string>, body: Body, freshId: string)
    requires freshId !in Ids(ps)
    requires CreateProduct(ps, auth, body, freshId).response.status == 201
    ensures var h := CreateProduct(ps, auth, body, freshId);
      GetProduct(h.products, freshId) == Response(200, h.response.payload)
  {
    var h := CreateProduct(ps, auth, body, freshId);
    var created := MakeProduct(freshId, body);
    assert h.products == ps + [created];
    FindIndexOfAppended(ps, created);
  }

  /** A record appended under an id the store does not hold is found at the
      end. */
  lemma {:induction false} FindIndexOfAppended(ps: seq<Product>, x: Product)
    requires x.id !in Ids(ps)
    ensures FindIndex(ps + [x], x.id) == |ps|
    decreases |ps|
  {
    if ps != [] {
      assert ps[0] in ps;
      assert (ps + [x])[1..] == ps[1..] + [x];
      assert Ids(ps[1..]) <= Ids(ps) by {
        forall p | p in ps[1..] ensures p in ps { }
      }
      FindIndexOfAppended(ps[1..], x);
    }
  }

  /** In a store whose ids are unique, a successful delete followed by a read
      of the same id answers 404. */
  lemma DeleteThenGetNotFound(ps: seq<Product>, auth: Option<string>, id: string)
    requires UniqueIds(ps)
    requires DeleteProduct(ps, auth, id).response.status == 200
    ensures GetProduct(ps, id).status == 200
    ensures GetProduct(DeleteProduct(ps, auth, id).products, id) == NotFound()
  {
    var i := FindIndex(ps, id);
    FindIndexFound(ps, id);
    RemoveAtKeepsUnique(ps, i);
    FindIndexFound(RemoveAt(ps, i), id);
  }

  /** After a successful update, reading the id gives the updated record. */
  lemma UpdatedIsRead(ps: seq<Product>, auth: Option<string>, id: string, body: Body)
    requires UpdateProduct(ps, auth, id, body).response.status == 200
    ensures var h := UpdateProduct(ps, auth, id, body);
      GetProduct(h.products, id) == h.response
  {
    var h := UpdateProduct(ps, auth, id, body);
    var i := FindIndex(ps, id);
    assert FindIndex(h.products, id) == i;
  }
}
