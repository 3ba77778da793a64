/** The cache coordinator. Reads by id go through the single-item region;
    updates and deletes invalidate that record's entry and the whole search
    tag group after the repository call succeeds; searches are remembered
    under a key built from the whole request, except for deep pages. */
module Services {
  import opened Values
  import opened Products
  import opened ElasticSearch
  import opened AppCache
  import opened Jobs
  import opened Repository

  /** Pages beyond this depth bypass the search cache. */
  const MAX_CACHED_PAGE := 50

  /** `(int) $request->get('page', 1)`. */
  function RequestPage(request: Params): (page: int)
    ensures Get(request, "page").None? ==> page == 1
    ensures Get(request, "page") == Some(Null) ==> page == 0
    ensures forall n :: Get(request, "page") == Some(Int(n)) ==> page == n
  {
    IntCast(ParamOr(request, "page", Int(1)))
  }

  /** `(int) $request->get('per_page', 15)`. */
  function RequestPerPage(request: Params): (perPage: int)
    ensures Get(request, "per_page").None? ==> perPage == 15
    ensures Get(request, "per_page") == Some(Null) ==> perPage == 0
    ensures forall n :: Get(request, "per_page") == Some(Int(n)) ==> perPage == n
  {
    IntCast(ParamOr(request, "per_page", Int(15)))
  }

  /** Without page parameters the search asks for the first fifteen hits. */
  lemma RequestWindowDefaults(request: Params)
    requires forall i :: 0 <= i < |request| ==> request[i].0 != "page" && request[i].0 != "per_page"
    ensures RequestPage(request) == 1 && RequestPerPage(request) == 15
    ensures QueryOf(request, RequestPage(request), RequestPerPage(request)).from == 0
    ensures QueryOf(request, RequestPage(request), RequestPerPage(request)).size == 15
  {
    GetFinds(request, "page");
    GetFinds(request, "per_page");
  }

  /** A page number written in decimal is read back as that number. */
  lemma RequestPageFromString(request: Params, n: int)
    requires Get(request, "page") == Some(Str(IntToString(n)))
    ensures RequestPage(request) == n
  {
    IntCastOfIntToString(n);
  }

  /** The cache key leaves out null parameters, so a request whose
      `per_page` is null shares the key of the same request without it,
      though the two ask for different windows (0 hits against 15). */
  lemma NullParameterSharesSearchKey(request: Params)
    requires forall i :: 0 <= i < |request| ==> request[i].0 != "per_page"
    ensures SearchKey(request + [("per_page", Null)]) == SearchKey(request)
    ensures RequestPerPage(request) == 15
    ensures RequestPerPage(request + [("per_page", Null)]) == 0
  {
    var nulled := request + [("per_page", Null)];
    assert request[..|request|] + [("per_page", Null)] + request[|request|..] == nulled;
    SearchKeyIgnoresNull(request, |request|, "per_page");
    GetFinds(request, "per_page");
    GetFinds(nulled, "per_page");
    assert nulled[|request|] == ("per_page", Null);
    var i :| 0 <= i < |nulled| && nulled[i] == ("per_page", Get(nulled, "per_page").value);
    assert i == |request|;
  }

  // ---------------------------------------------------------------------
  // Coherence of the single-item region with the record store
  // ---------------------------------------------------------------------

  /** No cached record is stale: a non-null entry under `product_<id>` is the
      stored record `id`. */
  ghost predicate Coherent(items: map<string, ItemEntry>, records: map<int, Product>) {
    forall id {:trigger ProductKey(id)} ::
      ProductKey(id) in items && items[ProductKey(id)].value.Some? ==>
        id in records && items[ProductKey(id)].value.value == records[id]
  }

  /** A coherent hit is the stored record. */
  lemma CoherentHit(items: map<string, ItemEntry>, records: map<int, Product>, id: int)
    requires Coherent(items, records)
    requires ProductKey(id) in items && items[ProductKey(id)].value.Some?
    ensures id in records && items[ProductKey(id)].value == Some(records[id])
  {
  }

  /** Storing what the store holds keeps the region coherent. */
  lemma {:induction false} CoherentAfterFill(items: map<string, ItemEntry>, records: map<int, Product>, id: int, ttl: nat)
    requires Coherent(items, records)
    ensures Coherent(items[ProductKey(id) := ItemEntry(if id in records then Some(records[id]) else None, ttl)], records)
  {
    var items' := items[ProductKey(id) := ItemEntry(if id in records then Some(records[id]) else None, ttl)];
    forall j | ProductKey(j) in items' && items'[ProductKey(j)].value.Some?
      ensures j in records && items'[ProductKey(j)].value.value == records[j]
    {
      if ProductKey(j) == ProductKey(id) {
        ProductKeyInjective(j, id);
      }
    }
  }

  /** Changing a record and forgetting its entry keeps the region coherent. */
  lemma CoherentAfterChange(items: map<string, ItemEntry>, records: map<int, Product>, id: int, p: Product)
    requires Coherent(items, records)
    ensures Coherent(items - {ProductKey(id)}, records[id := p])
  {
  }

  /** A record stored under a never-used id has nothing cached. */
  lemma CoherentAfterInsert(items: map<string, ItemEntry>, records: map<int, Product>, id: int, p: Product)
    requires Coherent(items, records)
    requires id !in records
    ensures Coherent(items, records[id := p])
  {
  }

  // ---------------------------------------------------------------------
  // The service
  // ---------------------------------------------------------------------

  class ProductService {
    const repo: EloquentProductRepository
    const es: ElasticSearchService
    const cache: Cache

    ghost predicate Valid()
      reads repo, cache
    {
      && repo.Valid()
      && repo.observer.cache == cache
      && Coherent(cache.items, repo.records)
    }

    constructor (repo: EloquentProductRepository, es: ElasticSearchService, cache: Cache)
      requires repo.Valid() && repo.observer.cache == cache
      requires Coherent(cache.items, repo.records)
      ensures this.repo == repo && this.es == es && this.cache == cache
      ensures Valid()
    {
      this.repo, this.es, this.cache := repo, es, cache;
    }

    /** `Cache::remember('product_'.$id, 120, fn () => repository->find($id))`:
        a hit answers from the cache and writes nothing; a miss (including a
        stored null) asks the repository and stores its answer. Either way
        the answer is the stored record, soft-deleted ones included. */
    method Find(id: int) returns (r: Option<Product>)
      requires Valid()
      modifies cache
      ensures Valid()
      ensures r == (if id in repo.records then Some(repo.records[id]) else None)
      ensures cache.tagged == old(cache.tagged)
      ensures old(ProductKey(id) in cache.items && cache.items[ProductKey(id)].value.Some?) ==>
        cache.items == old(cache.items)
      ensures !old(ProductKey(id) in cache.items && cache.items[ProductKey(id)].value.Some?) ==>
        cache.items == old(cache.items)[ProductKey(id) := ItemEntry(r, ITEM_TTL)]
    {
      var key := ProductKey(id);
      var hit := cache.Get(key);
      if hit.Some? {
        CoherentHit(cache.items, repo.records, id);
        r := hit;
      } else {
        r := repo.Find(id);
        CoherentAfterFill(cache.items, repo.records, id, ITEM_TTL);
        cache.Put(key, r, ITEM_TTL);
      }
    }

    /** `create`: delegates to the repository. */
    method Create(data: Attributes) returns (p: Product)
      requires Valid()
      modifies repo, cache, repo.observer.queue
      ensures Valid()
      ensures p == Product(old(repo.nextId), Fillable(data), false)
      ensures repo.records == old(repo.records)[p.id := p]
      ensures repo.observer.queue.tasks == old(repo.observer.queue.tasks) + [Sync(p)]
      ensures cache.items == old(cache.items) && cache.tagged == map[]
    {
      CoherentAfterInsert(cache.items, repo.records, repo.nextId, Product(repo.nextId, Fillable(data), false));
      p := repo.Create(data);
    }

    /** Updates through the repository, then forgets the record's entry and
        flushes the search tag group; a NotFound leaves everything as it was. */
    method Update(id: int, data: Attributes) returns (r: Result<Product>)
      requires Valid()
      modifies repo, cache, repo.observer.queue
      ensures Valid()
      ensures repo.nextId == old(repo.nextId)
      ensures id !in old(repo.records) ==>
        && r == Err(NotFound(id))
        && unchanged(repo) && unchanged(cache) && unchanged(repo.observer.queue)
      ensures id in old(repo.records) ==>
        && r == Ok(old(repo.records[id]).(attributes := Fill(old(repo.records[id]).attributes, data)))
        && repo.records == old(repo.records)[id := r.value]
        && cache.items == old(cache.items) - {ProductKey(id)}
        && cache.tagged == map[]
      ensures id in old(repo.records) ==>
        repo.observer.queue.tasks ==
          old(repo.observer.queue.tasks) + (if r.value != old(repo.records[id]) then [Sync(r.value)] else [])
    {
      ghost var items0, records0 := cache.items, repo.records;
      if id in repo.records {
        var p := repo.records[id].(attributes := Fill(repo.records[id].attributes, data));
        CoherentAfterChange(cache.items, repo.records, id, p);
      }
      r := repo.Update(id, data);
      if r.Err? {
        return;
      }
      cache.Forget(ProductKey(id));
      cache.FlushSearchTag();
      assert cache.items == items0 - {ProductKey(id)};
      CoherentAfterChange(items0, records0, id, r.value);
    }

    /** Soft-deletes through the repository, then forgets the record's entry
        and flushes the search tag group; a NotFound leaves everything as it was. */
    method Delete(id: int) returns (err: Option<Error>)
      requires Valid()
      modifies repo, cache, repo.observer.queue
      ensures Valid()
      ensures repo.nextId == old(repo.nextId)
      ensures id !in old(repo.records) ==>
        && err == Some(NotFound(id))
        && unchanged(repo) && unchanged(cache) && unchanged(repo.observer.queue)
      ensures id in old(repo.records) ==>
        && err == None
        && repo.records == old(repo.records)[id := old(repo.records[id]).(trashed := true)]
        && cache.items == old(cache.items) - {ProductKey(id)}
        && cache.tagged == map[]
        && repo.observer.queue.tasks == old(repo.observer.queue.tasks) + [Remove(id)]
    {
      ghost var items0, records0 := cache.items, repo.records;
      var r := repo.Delete(id);
      if r.Err? {
        return Some(r.error);
      }
      cache.Forget(ProductKey(id));
      cache.FlushSearchTag();
      CoherentAfterChange(items0, records0, id, records0[id].(trashed := true));
      err := None;
    }

    /** Pages beyond 50 go straight to the index and leave the cache alone;
        other pages are remembered in the search tag group under the key of
        the whole request. */
    method Search(request: Params, engine: Engine) returns (r: Response)
      requires Valid()
      modifies cache
      ensures Valid()
      ensures cache.items == old(cache.items)
      ensures RequestPage(request) > MAX_CACHED_PAGE ==>
        && cache.tagged == old(cache.tagged)
        && r == SearchResult(es.index, request, RequestPage(request), RequestPerPage(request), engine)
      ensures RequestPage(request) <= MAX_CACHED_PAGE && SearchKey(request) in old(cache.tagged) ==>
        && cache.tagged == old(cache.tagged)
        && r == old(cache.tagged[SearchKey(request)].response)
      ensures RequestPage(request) <= MAX_CACHED_PAGE && SearchKey(request) !in old(cache.tagged) ==>
        && r == SearchResult(es.index, request, RequestPage(request), RequestPerPage(request), engine)
        && cache.tagged == old(cache.tagged)[SearchKey(request) := SearchEntry(r, SEARCH_TTL)]
    {
      var page := IntCast(ParamOr(request, "page", Int(1)));
      var perPage := IntCast(ParamOr(request, "per_page", Int(15)));
      if page > MAX_CACHED_PAGE {
        var issued;
        r, issued := es.Search(request, page, perPage, engine);
        return;
      }
      var key := SearchKey(request);
      var hit := cache.TagGet(key);
      if hit.Some? {
        r := hit.value;
      } else {
        var issued;
        r, issued := es.Search(request, page, perPage, engine);
        cache.TagPut(key, r, SEARCH_TTL);
      }
    }
  }

  /** A record read through the cache and then changed directly on the
      model, outside the service, is seen changed by the next read: the
      notifier's `updated` handler forgets the cached copy. */
  method ReadAfterUpdate(svc: ProductService, id: int, data: Attributes) returns (first: Option<Product>, second: Option<Product>)
    requires svc.Valid() && id in svc.repo.records
    modifies svc.repo, svc.cache, svc.repo.observer.queue
    ensures svc.Valid()
    ensures first == Some(old(svc.repo.records[id]))
    ensures second == Some(old(svc.repo.records[id]).(attributes := Fill(old(svc.repo.records[id]).attributes, data)))
  {
    first := svc.Find(id);
    ghost var items0, records0 := svc.cache.items, svc.repo.records;
    var updated := svc.repo.Update(id, data);
    if updated.value != records0[id] {
      CoherentAfterChange(items0, records0, id, updated.value);
    } else {
      assert svc.repo.records == records0;
    }
    second := svc.Find(id);
  }

  /** A record read through the cache and then soft-deleted directly on the
      model is read back trashed: the notifier's `deleted` handler forgets the
      cached copy. */
  method ReadAfterDelete(svc: ProductService, id: int) returns (first: Option<Product>, second: Option<Product>)
    requires svc.Valid() && id in svc.repo.records
    modifies svc.repo, svc.cache, svc.repo.observer.queue
    ensures svc.Valid()
    ensures first == Some(old(svc.repo.records[id]))
    ensures second == Some(old(svc.repo.records[id]).(trashed := true))
  {
    first := svc.Find(id);
    ghost var items0, records0 := svc.cache.items, svc.repo.records;
    var deleted := svc.repo.Delete(id);
    CoherentAfterChange(items0, records0, id, records0[id].(trashed := true));
    second := svc.Find(id);
  }
}
