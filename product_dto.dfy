/** The product data transfer object: six typed fields built from a
    validated request, and their array form handed to the repository. */
module ProductDtos {
  import opened Values
  import Products

  /** Only description and status are nullable; price is in hundredths. */
  datatype ProductDto = ProductDto(
    sku: string,
    name: string,
    description: Option<string>,
    price: int,
    category: string,
    status: Option<string>)

  /** `$request->validated($key, $default)`: the default only for a missing key. */
  function Validated(req: map<string, Value>, key: string, default: Value): Value {
    if key in req then req[key] else default
  }

  /** An argument for a `string` parameter; None where PHP raises a TypeError. */
  function StringArg(v: Value): Option<string> {
    if v.Str? then Some(v.s) else None
  }

  /** An argument for a `?string` parameter: null is accepted. */
  function NullableStringArg(v: Value): Option<Option<string>> {
    match v
    case Null => Some(None)
    case Str(s) => Some(Some(s))
    case _ => None
  }

  /** An argument for a `float` parameter: an int widens, in hundredths. */
  function FloatArg(v: Value): Option<int> {
    match v
    case Int(i) => Some(i * 100)
    case Dec(h) => Some(h)
    case _ => None
  }

  /** `ProductDto::fromRequest`: the constructor applied to the validated
      fields, status defaulting to "active" when the request omits it. */
  function FromRequest(req: map<string, Value>): (r: Option<ProductDto>)
    ensures r.Some? <==>
      && "sku" in req && req["sku"].Str?
      && "name" in req && req["name"].Str?
      && ("description" in req ==> req["description"].Null? || req["description"].Str?)
      && "price" in req && (req["price"].Int? || req["price"].Dec?)
      && "category" in req && req["category"].Str?
      && ("status" in req ==> req["status"].Null? || req["status"].Str?)
    ensures r.Some? ==>
      && req["sku"] == Str(r.value.sku)
      && req["name"] == Str(r.value.name)
      && req["category"] == Str(r.value.category)
      && (r.value.description.Some? <==> "description" in req && req["description"].Str?)
      && (r.value.description.Some? ==> req["description"] == Str(r.value.description.value))
    ensures r.Some? && "status" !in req ==> r.value.status == Some("active")
    ensures r.Some? && "status" in req ==>
      req["status"] == (if r.value.status.Some? then Str(r.value.status.value) else Null)
    ensures r.Some? && req["price"].Int? ==> r.value.price == req["price"].i * 100
    ensures r.Some? && req["price"].Dec? ==> r.value.price == req["price"].hundredths
  {
    var sku := StringArg(Validated(req, "sku", Null));
    var name := StringArg(Validated(req, "name", Null));
    var description := NullableStringArg(Validated(req, "description", Null));
    var price := FloatArg(Validated(req, "price", Null));
    var category := StringArg(Validated(req, "category", Null));
    var status := NullableStringArg(Validated(req, "status", Str("active")));
    if sku.Some? && name.Some? && description.Some? && price.Some? && category.Some? && status.Some? then
      Some(ProductDto(sku.value, name.value, description.value, price.value, category.value, status.value))
    else
      None
  }

  function NullableToValue(o: Option<string>): Value {
    if o.Some? then Str(o.value) else Null
  }

  /** `toArray`: the six fields under their own names, nulls kept. */
  function ToArray(d: ProductDto): (r: map<string, Value>)
    ensures r.Keys == Products.FILLABLE
    ensures r["sku"] == Str(d.sku) && r["name"] == Str(d.name) && r["category"] == Str(d.category)
    ensures r["price"] == Dec(d.price)
    ensures r["description"].Null? <==> d.description.None?
    ensures r["status"].Null? <==> d.status.None?
    ensures d.description.Some? ==> r["description"] == Str(d.description.value)
    ensures d.status.Some? ==> r["status"] == Str(d.status.value)
  {
    map[
      "sku" := Str(d.sku),
      "name" := Str(d.name),
      "description" := NullableToValue(d.description),
      "price" := Dec(d.price),
      "category" := Str(d.category),
      "status" := NullableToValue(d.status)
    ]
  }

  /** Projecting a DTO and building it again gives the same DTO. */
  lemma ToArrayFromRequest(d: ProductDto)
    ensures FromRequest(ToArray(d)) == Some(d)
  {
  }

  /** Building from a complete request and projecting gives the request back
      on the six fields, status filled in when it was missing. */
  lemma FromRequestToArray(req: map<string, Value>)
    requires FromRequest(req).Some?
    ensures forall k :: k in Products.FILLABLE && k in req && k != "price" ==>
      ToArray(FromRequest(req).value)[k] == req[k]
    ensures "status" !in req ==> ToArray(FromRequest(req).value)["status"] == Str("active")
    ensures req["price"].Int? ==> ToArray(FromRequest(req).value)["price"] == Dec(req["price"].i * 100)
    ensures req["price"].Dec? ==> ToArray(FromRequest(req).value)["price"] == req["price"]
  {
  }
}
