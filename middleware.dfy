/** The two checks that run before the handlers that change the store:
    authentication (before create, update and delete) and validation of the
    request body (before create and update). */
module Middleware {
  import opened Wrappers
  import opened Catalogue
  import opened Errors

  const BearerToken: string := "Bearer mysecrettoken"
  const UnauthorizedMessage: string := "Unauthorized: Invalid or missing token"
  const AllFieldsRequired: string :=
    "All fields (name, description, price, category, inStock) are required"

  /** The authentication check on the Authorization header: it fails when the
      header is falsy or differs from the bearer token, so it passes exactly
      for the token. */
  function Authenticate(header: Option<string>): (ok: bool)
    ensures ok <==> header == Some(BearerToken)
  {
    !(!Truthy(header) || header.value != BearerToken)
  }

  /** The response a failed authentication sends directly, without passing
      through the global error handler: status 401, which neither error class
      carries, and the fixed message. */
  function Unauthorized(): (r: Response)
    ensures r.status == 401 && r.payload == Problem(UnauthorizedMessage)
    ensures forall m :: r != HandleError(NotFoundError(m)) && r != HandleError(ValidationError(m))
  {
    Response(401, Problem(UnauthorizedMessage))
  }

  /** The validation check: the three string fields must be truthy, price and
      inStock only must not be null or missing. */
  function ValidateProduct(b: Body): (r: Outcome<Error>)
    ensures r.Fail? ==> r.error == ValidationError(AllFieldsRequired)
    ensures r.Pass? ==> b.name.Some? && b.description.Some? && b.price.Some?
                        && b.category.Some? && b.inStock.Some?
  {
    if !Truthy(b.name) || !Truthy(b.description) || b.price.None?
       || !Truthy(b.category) || b.inStock.None?
    then Fail(ValidationError(AllFieldsRequired))
    else Pass
  }

  /** The body that would create or update to exactly the fields of `p`. */
  function ToBody(p: Product): Body
  {
    Body(Some(p.name), Some(p.description), Some(p.price), Some(p.category), Some(p.inStock))
  }

  /** The record a handler builds from a validated body and an id. */
  function MakeProduct(id: string, b: Body): (p: Product)
    requires ValidateProduct(b).Pass?
    ensures p.id == id && Storable(p) && ToBody(p) == b
  {
    Product(id, b.name.value, b.description.value, b.price.value, b.category.value, b.inStock.value)
  }

  /** Validation accepts exactly the bodies of storable records: the body of
      a product with non-empty name, description and category. */
  lemma ValidIffBodyOfStorable(b: Body)
    ensures ValidateProduct(b).Pass? <==> exists p :: Storable(p) && ToBody(p) == b
  {
    if ValidateProduct(b).Pass? {
      var p := MakeProduct("", b);
      assert Storable(p) && ToBody(p) == b;
    }
  }

  /** Turning a storable record into a body and back gives the record again. */
  lemma BodyRoundTrip(p: Product)
    requires Storable(p)
    ensures ValidateProduct(ToBody(p)).Pass? && MakeProduct(p.id, ToBody(p)) == p
  {
  }

  /** Falsy values that are not null pass: a zero price and `inStock = false`. */
  lemma ZeroPriceAndOutOfStockPass(name: string, description: string, category: string)
    requires name != "" && description != "" && category != ""
    ensures ValidateProduct(Body(Some(name), Some(description), Some(0), Some(category), Some(false))).Pass?
  {
  }

  /** An empty string in a text field is rejected like a missing one. */
  lemma EmptyNameRejected(b: Body)
    requires b.name == Some("") || b.name.None?
    ensures ValidateProduct(b) == Fail(ValidationError(AllFieldsRequired))
  {
  }
}
