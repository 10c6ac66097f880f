/** The data model of the product service: the product record, the request
    body a client sends, the error objects the handlers raise, and the
    responses the routes send back. */
module Catalogue {
  import opened Wrappers

  /** One stored product. The price is a JavaScript number in the service;
      here it is an integer, since it is only stored and echoed back. */
  datatype Product = Product(
    id: string,
    name: string,
    description: string,
    price: int,
    category: string,
    inStock: bool)

  /** A parsed JSON request body: each of the five fields may be absent or
      null (`None`). */
  datatype Body = Body(
    name: Option<string>,
    description: Option<string>,
    price: Option<int>,
    category: Option<string>,
    inStock: Option<bool>)

  /** A thrown error: its class name, its message and the HTTP status it
      carries, if any. */
  datatype Error = Error(name: string, message: string, status: Option<int>)

  /** The JSON bodies the routes answer with. */
  datatype Payload =
    | Item(product: Product)
    | Listing(page: int, limit: int, total: nat, data: seq<Product>)
    | Removed(message: string, product: Product)
    | Counts(stats: map<string, nat>)
    | Problem(error: string)

  datatype Response = Response(status: int, payload: Payload)

  /** JavaScript truthiness of an optional string: present and not empty. */
  predicate Truthy(v: Option<string>)
  {
    v.Some? && v.value != ""
  }

  /** The ids present in a store. */
  function Ids(ps: seq<Product>): set<string>
  {
    set p | p in ps :: p.id
  }

  /** No two records of the store share an id. */
  predicate UniqueIds(ps: seq<Product>)
  {
    forall i, j :: 0 <= i < j < |ps| ==> ps[i].id != ps[j].id
  }

  /** A record every stored product satisfies: the three string fields are
      non-empty, as validation demands before anything is stored. */
  predicate Storable(p: Product)
  {
    p.name != "" && p.description != "" && p.category != ""
  }

  /** What every route keeps true of the store: ids are unique and every
      record has passed validation. */
  predicate WellFormed(ps: seq<Product>)
  {
    UniqueIds(ps) && forall p :: p in ps ==> Storable(p)
  }

  /** The three records the store holds when the process starts. */
  function Seed(): (ps: seq<Product>)
    ensures WellFormed(ps)
  {
    [ Product("1", "Laptop", "High-performance laptop with 16GB RAM", 1200, "electronics", true),
      Product("2", "Smartphone", "Latest model with 128GB storage", 800, "electronics", true),
      Product("3", "Coffee Maker", "Programmable coffee maker with timer", 50, "kitchen", false) ]
  }
}
