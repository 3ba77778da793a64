/** The application cache as the catalog uses it: a single-item region keyed
    by `product_<id>` and the search-result region under the tag
    `products_search`. Entries keep their time-to-live as a recorded number;
    expiry is not modelled. */
module AppCache {
  import opened Values
  import opened Products
  import opened ElasticSearch

  const ITEM_TTL: nat := 120
  const SEARCH_TTL: nat := 120
  const SEARCH_TAG := "products_search"

  /** The single-item key of a record. */
  function ProductKey(id: int): string {
    "product_" + IntToString(id)
  }

  /** Two records never share a single-item key. */
  lemma ProductKeyInjective(a: int, b: int)
    requires ProductKey(a) == ProductKey(b)
    ensures a == b
  {
    assert ProductKey(a)[8..] == IntToString(a);
    assert ProductKey(b)[8..] == IntToString(b);
    IntToStringInjective(a, b);
  }

  /** The search-result key: the whole request as a query string. */
  function SearchKey(request: Params): (k: string)
    ensures |k| >= 7 && k[..7] == "search_"
    ensures k == "search_" <==> forall i :: 0 <= i < |request| ==> request[i].1 == Null
  {
    "search_" + QueryString(request)
  }

  /** A null parameter, wherever it sits in the request, does not change the
      search key. */
  lemma SearchKeyIgnoresNull(request: Params, i: nat, key: string)
    requires i <= |request|
    ensures SearchKey(request[..i] + [(key, Null)] + request[i..]) == SearchKey(request)
  {
    QueryStringSkipsNull(request, i, key);
  }

  /** A single-item entry; a stored null (`None`) reads back as a miss. */
  datatype ItemEntry = ItemEntry(value: Option<Product>, ttl: nat)

  datatype SearchEntry = SearchEntry(response: Response, ttl: nat)

  class Cache {
    /** The untagged region. */
    var items: map<string, ItemEntry>
    /** The entries under the `products_search` tag. */
    var tagged: map<string, SearchEntry>

    constructor ()
      ensures items == map[] && tagged == map[]
    {
      items, tagged := map[], map[];
    }

    /** `Cache::get`: null for a missing key and for a stored null alike. */
    method Get(key: string) returns (v: Option<Product>)
      ensures v == (if key in items then items[key].value else None)
    {
      v := if key in items then items[key].value else None;
    }

    method Put(key: string, v: Option<Product>, ttl: nat)
      modifies this
      ensures items == old(items)[key := ItemEntry(v, ttl)] && tagged == old(tagged)
    {
      items := items[key := ItemEntry(v, ttl)];
    }

    method Forget(key: string)
      modifies this
      ensures items == old(items) - {key} && tagged == old(tagged)
    {
      items := items - {key};
    }

    /** `Cache::tags(['products_search'])->get`. */
    method TagGet(key: string) returns (v: Option<Response>)
      ensures v == (if key in tagged then Some(tagged[key].response) else None)
    {
      v := if key in tagged then Some(tagged[key].response) else None;
    }

    method TagPut(key: string, r: Response, ttl: nat)
      modifies this
      ensures tagged == old(tagged)[key := SearchEntry(r, ttl)] && items == old(items)
    {
      tagged := tagged[key := SearchEntry(r, ttl)];
    }

    /** `Cache::tags(['products_search'])->flush()`: the whole group goes. */
    method FlushSearchTag()
      modifies this
      ensures tagged == map[] && items == old(items)
    {
      tagged := map[];
    }
  }
}
