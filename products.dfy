/** The catalog record as the record store holds it, Eloquent's mass
    assignment restricted to the fillable attributes, and the document form
    the record takes in the search index. */
module Products {
  import opened Values

  /** The attributes a request may set (the model's `$fillable`). */
  const FILLABLE: set<string> := {"sku", "name", "description", "price", "category", "status"}

  type Attributes = map<string, Value>

  /** A stored record: its id, its attribute values and the soft-delete mark. */
  datatype Product = Product(id: int, attributes: Attributes, trashed: bool)

  /** The fillable part of a data array: every other key is silently dropped. */
  function Fillable(data: Attributes): (r: Attributes)
    ensures r.Keys == data.Keys * FILLABLE
    ensures forall k :: k in r ==> r[k] == data[k]
  {
    map k | k in data && k in FILLABLE :: data[k]
  }

  /** Eloquent `fill($data)`: the fillable keys of `data` overwrite, the rest
      of the attributes stay. */
  function Fill(attrs: Attributes, data: Attributes): (r: Attributes)
    ensures r.Keys == attrs.Keys + (data.Keys * FILLABLE)
    ensures forall k :: k in data && k in FILLABLE ==> r[k] == data[k]
    ensures forall k :: k in attrs && !(k in data && k in FILLABLE) ==> r[k] == attrs[k]
  {
    attrs + Fillable(data)
  }

  /** The record's array form (`$product->toArray()`), the body of its index
      document, keyed in the index by the record's id. */
  datatype Document = Document(id: int, source: Attributes, trashed: bool)

  function ToDocument(p: Product): (d: Document)
    ensures d.id == p.id && d.source == p.attributes && d.trashed == p.trashed
  {
    Document(p.id, p.attributes, p.trashed)
  }
}
