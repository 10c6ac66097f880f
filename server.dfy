/** The running service: one store object holding the product records, with
    one method per route. The methods change the record sequence in place the
    way the handlers change their array (append, assignment at an index,
    splice), and each is proved to do what the matching function of module
    Routes describes. */
module Server {
  import opened Wrappers
  import opened Catalogue
  import opened Errors
  import opened Middleware
  import opened Query
  import opened Stats
  import opened Routes

  class Store {
    var products: seq<Product>

    /** The store's invariant: its records are well formed. */
    ghost predicate Valid()
      reads this
    {
      WellFormed(products)
    }

    /** The store at process start holds the three seed records. */
    constructor ()
      ensures Valid() && products == Seed()
    {
      products := Seed();
    }

    /** GET /api/products: the handler only reads the store, so it answers
        with the list route's function of the current records. */
    method List(q: ListQuery) returns (r: Response)
      ensures r == ListProducts(products, q)
    {
      r := ListProducts(products, q);
    }

    /** GET /api/products/:id. The handler's `find` takes the first record
        with the id; since the store keeps ids unique, that record is the only
        one carrying it. */
    method Get(id: string) returns (r: Response)
      requires Valid()
      ensures r == GetProduct(products, id)
      ensures r.status == 200 ==>
        forall k :: 0 <= k < |products| && products[k].id == id ==> products[k] == r.payload.product
    {
      r := GetProduct(products, id);
      if r.status == 200 {
        var j :| 0 <= j < |products| && products[j] == r.payload.product;
      }
    }

    /** POST /api/products; `freshId` is the id the generator produced. */
    method Create(auth: Option<string>, body: Body, freshId: string) returns (r: Response)
      requires Valid() && freshId !in Ids(products)
      modifies this
      ensures Valid()
      ensures Handled(r, products) == CreateProduct(old(products), auth, body, freshId)
    {
      if !Authenticate(auth) {
        r := Unauthorized();
        return;
      }
      var check := ValidateProduct(body);
      if check.Fail? {
        r := HandleError(check.error);
        return;
      }
      CreateKeepsWellFormed(products, auth, body, freshId);
      var created := MakeProduct(freshId, body);
      products := products + [created];
      r := Response(201, Item(created));
    }

    /** PUT /api/products/:id. */
    method Update(auth: Option<string>, id: string, body: Body) returns (r: Response)
      requires Valid()
      modifies this
      ensures Valid()
      ensures Handled(r, products) == UpdateProduct(old(products), auth, id, body)
    {
      if !Authenticate(auth) {
        r := Unauthorized();
        return;
      }
      var check := ValidateProduct(body);
      if check.Fail? {
        r := HandleError(check.error);
        return;
      }
      var i := FindIndex(products, id);
      if i == -1 {
        r := NotFound();
        return;
      }
      UpdateKeepsWellFormed(products, auth, id, body);
      var updated := MakeProduct(id, body);
      products := products[i := updated];
      r := Response(200, Item(updated));
    }

    /** DELETE /api/products/:id. */
    method Delete(auth: Option<string>, id: string) returns (r: Response)
      requires Valid()
      modifies this
      ensures Valid()
      ensures Handled(r, products) == DeleteProduct(old(products), auth, id)
    {
      if !Authenticate(auth) {
        r := Unauthorized();
        return;
      }
      var i := FindIndex(products, id);
      if i == -1 {
        r := NotFound();
        return;
      }
      DeleteKeepsWellFormed(products, auth, id);
      var removed := products[i];
      products := RemoveAt(products, i);
      r := Response(200, Removed(DeletedMessage, removed));
    }

    /** GET /api/products/stats/category-count: one pass over the records,
        bumping the count of each record's category. */
    method CategoryCount() returns (r: Response)
      ensures r == CategoryStats(products)
    {
      var stats: map<string, nat> := map[];
      var i := 0;
      while i < |products|
        invariant 0 <= i <= |products|
        invariant stats == Tally(products[..i])
      {
        var c := products[i].category;
        stats := Bump(stats, c);
        assert products[..i + 1][..i] == products[..i];
        i := i + 1;
      }
      assert products[..i] == products;
      r := Response(200, Counts(stats));
    }
  }
}
