# Product catalog: index synchronisation and cache coherence

This project models the core of a Laravel product catalog API. Records live in a
relational store behind an Eloquent repository. Every insert, update, soft delete,
restore and force delete fires a lifecycle event. An observer turns each event into
one queued propagation task for the Elasticsearch `products` index, and it
invalidates the application cache. A service layer reads records through a
single-item cache. It remembers search results in a tag group that every change
flushes, and it bypasses that cache for pages deeper than 50.

The model is split into these modules:

- `Values`: the PHP scalars the core handles. It covers `empty()`, the `(int)` cast
  with its leading-digits parse, decimal rendering of integers, and request
  parameters as an ordered list with `http_build_query` rendering.
- `Products`: the record, mass assignment limited to `$fillable`, and the index
  document.
- `ProductDtos`: the DTO built from a validated request, and its array form.
- `ElasticSearch`: the index as an abstract state, either absent or a map from record
  id to document. It holds the request-to-query translation of `search`, and the
  `ElasticSearchService` class whose methods change that state. The engine's own
  query evaluation is a function parameter.
- `AppCache`: the two cache regions as a class, plus the `product_<id>` and
  `search_<query>` keys.
- `Jobs`: the queue as an outbox of dispatched tasks, and the removal job.
- `Observer`: the five lifecycle handlers.
- `Repository`: the Eloquent repository. It fires the observer the way Eloquent
  does: `created` and `deleted` always, `updated` only when an attribute changed.
- `Services`: the product service. Its invariant says the single-item cache never
  holds a stale record.

The main results:

- Replaying index tasks converges. Each record's document is what the latest task
  for that record made it, whatever the interleaving with other records' tasks.
  A duplicate delivered right after its original is harmless; otherwise the last
  delivery wins, so a stale sync delivered after a removal brings the document
  back. Tasks on different records commute.
- `ProductService` keeps the cache coherent. When `product_<id>` holds a record, that
  record is the stored one. `find` therefore never returns a stale record after an
  update or a soft delete, whether made through the service or directly on the
  model, where only the observer's invalidation keeps the cache honest.
- The query built for a filter request is characterised clause by clause: each
  filter is present exactly when its parameter is non-empty in PHP's sense.
- The DTO survives a round trip through its array form.
- `(int)` reads back the decimal form of every integer.
- The search cache key cannot tell a request whose `per_page` is null from the same
  request without it, although the two ask for different windows
  (`Services.NullParameterSharesSearchKey`). Laravel's default middleware turns an
  empty query parameter into null, so with it `?q=widget&per_page=` and `?q=widget`
  share a cache entry.

## Model

| member | source | states |
|---|---|---|
| Values.GetFinds | app/Services/ElasticSearchService.php:161-190 | a parameter lookup finds nothing exactly when no pair has that key, and otherwise returns a value stored under it |
| Values.Empty | app/Services/ElasticSearchService.php:161-187 | `empty()` holds exactly for null, false, 0, 0.0, "" and "0" |
| Values.ParamOr | app/Services/ProductService.php:63-64 | `$request->get(key, default)` gives the default exactly for a missing key, and otherwise the present value, null, "" and "0" included |
| Values.NatToString | app/Services/ProductService.php:38 | the decimal form of a natural number is a non-empty string of digits, one digit long exactly below ten |
| Values.IntToString | app/Services/ProductService.php:38 | the decimal form of an integer starts with a minus sign exactly when the integer is negative |
| Values.NatToStringInjective | app/Services/ProductService.php:38 | different natural numbers have different decimal forms |
| Values.IntToStringInjective | app/Services/ProductService.php:38 | different integers have different decimal forms |
| Values.DigitPrefix | app/Services/ProductService.php:63-64 | the leading run that the `(int)` cast reads is a prefix made only of digits |
| Values.DigitsValueOfNatToString | app/Services/ProductService.php:63-64 | reading the digits of a natural number's decimal form gives the number back |
| Values.DigitPrefixOfDigits | app/Services/ProductService.php:63-64 | a string made only of digits is its own leading digit run |
| Values.IntCast | app/Services/ProductService.php:63-64 | `(int)` gives 0 for null, 1 and 0 for the booleans, an integer itself, and a decimal with its fraction dropped toward zero |
| Values.QueryString | app/Services/ProductService.php:75 | `http_build_query` gives the empty string exactly when every parameter is null |
| Values.QueryStringSkipsNull | app/Services/ProductService.php:75 | a null parameter inserted anywhere leaves the query string unchanged |
| Values.IntCastOfIntToString | app/Services/ProductService.php:63-64 | `(int)` applied to the decimal form of any integer, negative ones included, gives that integer back |
| Products.Fillable | app/Models/Product.php:13-20 | mass assignment keeps exactly the data keys in `$fillable`, with their values |
| Products.Fill | app/Repositories/EloquentProductRepository.php:32 | `update($data)` overwrites the fillable keys of the data and leaves every other attribute as it was |
| Products.ToDocument | app/Services/ElasticSearchService.php:118-122 | the document is indexed under the record's id and carries its attributes and soft-delete mark |
| ProductDtos.FromRequest | app/Dtos/ProductDto.php:19-29 | the DTO exists exactly when every validated field has its declared type; each field is the request's value, an integer price widened exactly (`i` becomes `i*100` hundredths); status defaults to "active" only when the request omits it |
| ProductDtos.ToArray | app/Dtos/ProductDto.php:31-41 | the array has exactly the six fillable keys, each holding its field, with nulls kept |
| ProductDtos.ToArrayFromRequest | app/Dtos/ProductDto.php:9-41 | building a DTO from its own array form gives the same DTO |
| ProductDtos.FromRequestToArray | app/Dtos/ProductDto.php:19-41 | the array form of a built DTO repeats the request on every field present in it, price included (an integer price as the equal decimal), and holds "active" for an omitted status |
| ElasticSearch.SortOrder | app/Services/ElasticSearchService.php:188 | `order ?? 'asc'`: "asc" when the order is missing or null, and the given order otherwise |
| ElasticSearch.QueryOf | app/Services/ElasticSearchService.php:150-190 | the window is `from = (page-1)*perPage`, `size = perPage` on the `products` index; there is one multi_match on `name^3`, `description` exactly when `q` is non-empty; the filters are exactly `FilterClauses`; there is one sort entry with its order exactly when `sort` is non-empty |
| ElasticSearch.FilterClauses | app/Services/ElasticSearchService.php:170-184 | there is a `category.keyword` term exactly when category is non-empty, and a `status` term exactly when status is non-empty, each holding the parameter; there is one `price` range exactly when a bound is non-empty, with `gte` and `lte` present exactly for the non-empty bounds; there is nothing else |
| ElasticSearch.BuildFilter | app/Services/ElasticSearchService.php:170-184 | appending the category term, the status term and the price range in the service's order gives exactly `FilterClauses` |
| ElasticSearch.BuildQuery | app/Services/ElasticSearchService.php:150-190 | building the body step by step gives exactly `QueryOf` |
| ElasticSearch.Upserted | app/Services/ElasticSearchService.php:111-123 | after an upsert the index exists and holds the document under its id, and every other id is unchanged |
| ElasticSearch.Deleted | app/Services/ElasticSearchService.php:125-135 | after a removal the id has no document, every other id is unchanged, and a missing index or document is left as it was |
| ElasticSearch.UpsertIdempotent | app/Services/ElasticSearchService.php:111-123 | indexing the same document twice is indexing it once |
| ElasticSearch.DeleteIdempotent | app/Services/ElasticSearchService.php:125-135 | removing a document twice is removing it once |
| ElasticSearch.ApplyCommutes | app/Services/ElasticSearchService.php:111-135 | tasks for different records commute |
| ElasticSearch.LatestFor | app/Services/ElasticSearchService.php:111-135 | the latest task for a record is one of the tasks, concerns that record and has no later task for it after it; there is none exactly when no task concerns the record |
| ElasticSearch.ReplayConverges | app/Services/ElasticSearchService.php:111-135 | after any sequence of tasks, a record's document is the latest upsert's document, or none after a latest removal, or the initial one when no task concerned it |
| ElasticSearch.ReplayCreatesIndex | app/Services/ElasticSearchService.php:111-135 | after replay the index exists exactly when it existed before or some upsert ran |
| ElasticSearch.LateRedeliveryWins | app/Services/ElasticSearchService.php:111-135 | a sync delivered again after the record's removal brings the removed document back |
| ElasticSearch.SearchResult | app/Services/ElasticSearchService.php:141-192 | with no index the answer is zero hits; otherwise it is the engine's answer to `QueryOf` |
| ElasticSearch.DuplicateDeliveryHarmless | app/Services/ElasticSearchService.php:111-135 | a task delivered twice in a row has the effect of one delivery |
| ElasticSearch.ElasticSearchService.IndexExists | app/Services/ElasticSearchService.php:36-39 | true exactly when the index exists |
| ElasticSearch.ElasticSearchService.CreateIndex | app/Services/ElasticSearchService.php:44-99 | creates an empty index when there is none; on an existing index the engine's refusal is an error and nothing changes |
| ElasticSearch.ElasticSearchService.DeleteIndex | app/Services/ElasticSearchService.php:104-109 | afterwards there is no index; without one nothing changes |
| ElasticSearch.ElasticSearchService.IndexProduct | app/Services/ElasticSearchService.php:111-123 | the new state is the upsert of the record's document, with the index created first when missing; re-indexing an equal document changes nothing |
| ElasticSearch.ElasticSearchService.DeleteProduct | app/Services/ElasticSearchService.php:125-135 | when the client call goes through, the new state is the removal of the id's document; when it fails, the swallowed exception leaves the index as it was; a missing document changes nothing either way |
| ElasticSearch.ElasticSearchService.Search | app/Services/ElasticSearchService.php:137-193 | without an index, returns zero hits and issues no query; otherwise issues exactly `QueryOf(filters, page, perPage)` and returns the engine's answer |
| AppCache.SearchKey | app/Services/ProductService.php:75 | the key is `search_` followed by the query string, and is bare `search_` exactly when every parameter is null |
| AppCache.SearchKeyIgnoresNull | app/Services/ProductService.php:75 | a null parameter inserted anywhere in the request leaves the search key unchanged |
| AppCache.ProductKeyInjective | app/Services/ProductService.php:38 | two records never share a `product_<id>` key |
| AppCache.Cache.Get | app/Services/ProductService.php:38-40 | a missing key and a stored null read alike as a miss |
| AppCache.Cache.Put | app/Services/ProductService.php:38-40 | stores one single-item entry with its time-to-live; nothing else changes |
| AppCache.Cache.Forget | app/Services/ProductService.php:46 | removes one single-item entry; nothing else changes |
| AppCache.Cache.TagGet | app/Services/ProductService.php:77 | returns the remembered search response under the key, if any |
| AppCache.Cache.TagPut | app/Services/ProductService.php:77-83 | remembers one search response with its time-to-live; nothing else changes |
| AppCache.Cache.FlushSearchTag | app/Services/ProductService.php:49 | empties the whole search tag group and leaves the single-item region alone |
| Jobs.Queue.Dispatch | app/Models/ProductObserver.php:16 | appends exactly one task to the queue |
| Jobs.HandleRemove | app/Jobs/RemoveProductFromElasticsearch.php:29-32 | the removal job's effect is the removal task's effect on the index when the client call goes through, and no effect when `deleteProduct` swallows a failure |
| Observer.TaskFor | app/Models/ProductObserver.php:14-57 | created, updated and restored dispatch a sync of the record; deleted and force-deleted dispatch a removal of its id |
| Observer.ProductObserver.OnCreated | app/Models/ProductObserver.php:14-18 | dispatches a sync and flushes the search tag group, and keeps every single-item entry |
| Observer.ProductObserver.OnUpdated | app/Models/ProductObserver.php:23-28 | dispatches a sync, forgets the record's entry and flushes the search tag group |
| Observer.ProductObserver.OnDeleted | app/Models/ProductObserver.php:33-38 | dispatches a removal, forgets the record's entry and flushes the search tag group |
| Observer.ProductObserver.OnRestored | app/Models/ProductObserver.php:43-47 | dispatches a sync and flushes the search tag group, and keeps every single-item entry |
| Observer.ProductObserver.OnForceDeleted | app/Models/ProductObserver.php:52-57 | dispatches a removal, forgets the record's entry and flushes the search tag group |
| Observer.ProductObserver.Handle | app/Models/ProductObserver.php:14-57 | every event dispatches exactly `TaskFor(event)` and flushes the search group; only updated, deleted and force-deleted forget the record's entry |
| Repository.EloquentProductRepository.Find | app/Repositories/EloquentProductRepository.php:16-19 | finds a record exactly when one is stored under the id, soft-deleted ones included |
| Repository.EloquentProductRepository.Create | app/Repositories/EloquentProductRepository.php:21-24 | stores a live record with the fillable data under a fresh id, and fires `created` |
| Repository.EloquentProductRepository.Update | app/Repositories/EloquentProductRepository.php:26-34 | an unknown id fails with NotFound before anything changes; otherwise the fillable data is merged in and returned, and `updated` fires exactly when something changed |
| Repository.EloquentProductRepository.Delete | app/Repositories/EloquentProductRepository.php:36-43 | an unknown id fails with NotFound before anything changes; otherwise the record becomes soft-deleted and `deleted` fires |
| Services.RequestPage | app/Services/ProductService.php:63 | page 1 when the parameter is missing, 0 when it is null, and an integer parameter itself |
| Services.RequestPerPage | app/Services/ProductService.php:64 | 15 hits when the parameter is missing, 0 when it is null, and an integer parameter itself |
| Services.RequestWindowDefaults | app/Services/ProductService.php:63-64 | without page parameters a search asks for page 1 with 15 hits, from offset 0 |
| Services.RequestPageFromString | app/Services/ProductService.php:63 | a page parameter written in decimal is read as that number |
| Services.NullParameterSharesSearchKey | app/Services/ProductService.php:64-75 | every request without `per_page` shares its cache key with the same request plus a null `per_page`, although the first asks for 15 hits and the second for 0 |
| Services.CoherentHit | app/Services/ProductService.php:36-41 | under coherence a cached hit is the stored record |
| Services.CoherentAfterFill | app/Services/ProductService.php:38-40 | caching the repository's answer for an id keeps the cache coherent |
| Services.CoherentAfterChange | app/Services/ProductService.php:43-59 | changing a record and forgetting its entry keeps the cache coherent |
| Services.CoherentAfterInsert | app/Repositories/EloquentProductRepository.php:21-24 | storing a record under an unused id keeps the cache coherent |
| Services.ProductService.Find | app/Services/ProductService.php:36-41 | always returns the stored record, or none; a hit writes nothing, and a miss stores the answer for 120 seconds; coherence is kept |
| Services.ProductService.Create | app/Services/ProductService.php:31-34 | delegates to the repository, which stores the record and fires `created`; coherence is kept |
| Services.ProductService.Update | app/Services/ProductService.php:43-51 | an unknown id changes nothing; otherwise the record is updated, its entry forgotten and the search group flushed, even when nothing changed; coherence is kept |
| Services.ProductService.Delete | app/Services/ProductService.php:53-59 | an unknown id changes nothing; otherwise the record is soft-deleted, a removal is queued, its entry forgotten and the search group flushed; coherence is kept |
| Services.ProductService.Search | app/Services/ProductService.php:61-84 | pages past 50 go to the index and leave the cache alone; otherwise a remembered response is returned unchanged, or the index's answer is stored under `search_<query>` for 120 seconds |
| Services.ReadAfterUpdate | tests/Feature/ProductControllerTest.php:59-77 | a record read through the cache and then updated directly on the model is read back with the updated attributes; only the observer's forget of `product_<id>` keeps the cache coherent across the update |
| Services.ReadAfterDelete | app/Models/ProductObserver.php:33-38 | a record read through the cache and then soft-deleted directly on the model is read back trashed; only the observer's forget of `product_<id>` keeps the cache coherent across the delete |

## Left out

- The client construction, the host and credential configuration and SSL handling are left out. They are deployment settings, not state.
- The index settings and mappings sent by `createIndex` are left out. Only the index's existence is modelled.
- The engine's scoring, matching and ranking are left out. The engine is a function parameter, and the model states exactly which query it receives.
- The execution of the sync job is not part of this model, because its class is not among the sources. Only its dispatch is modelled. The removal job is modelled.
- The queue workers, retries and concurrency are left out. Convergence is stated over any sequence of task deliveries instead.
- Cache time-to-live expiry is left out. No clock is modelled, so the time-to-live is recorded and never elapses.
- Float arithmetic is not modelled. Prices are decimals counted in hundredths.
- `Products.ToDocument` does not include the timestamps `toArray` emits, and it does not model the `decimal:2` cast. No clock is modelled.
- `Products.Fill` uses plain value equality for Eloquent's dirty check. Eloquent compares after casting.
- `Values.QueryString` does not model URL encoding in `http_build_query`, or the rendering of nested arrays.
- `Values.IntCast` does not model exponent notation, or the clamping of integers past the platform's range.
- `Values.Get` takes the first pair for a key. PHP arrays never hold a key twice.
- `ProductDtos.FromRequest` refuses scalars that PHP's coercive typing would convert: a numeric string or a bool for `price`, and an int, float or bool for `sku`, `name`, `category`, `description` or `status`. The validation rules that decide what reaches it live in a request class that is not part of this model.
- `ElasticSearch.ElasticSearchService.CreateIndex` follows the code: creating an existing index is the engine's error, not a success.
- `ElasticSearch.ElasticSearchService.Search` takes the page and page size as required parameters. It does not model the defaults `$page = 1, $perPage = 15`, because every caller passes both.
- `ElasticSearch.ElasticSearchService.DeleteProduct` models the client's outcome as the parameter `reached`. When it is false the document stays and the removal job still completes, so that removal is lost; nothing in the model retries it.
- `ElasticSearch.ElasticSearchService.Search`, `.IndexExists`, `.IndexProduct`, `.CreateIndex` and `.DeleteIndex` never fail except as stated. The engine client's calls can throw on a connection or server error, and that exception path is not modelled. The `Engine` parameter is total.
- `Services.ProductService.Search` does not model a failing engine call inside `remember`. That call would propagate its exception and cache nothing.
- `Repository.EloquentProductRepository.Create` always succeeds and always fires `created`. The database refuses a duplicate `sku`, a missing NOT NULL column or a `status` outside `active`/`inactive` (database/migrations/2024_01_01_000000_create_products_table.php:13-18), and then nothing is stored and no event fires. Those constraint errors are not modelled.
- `Repository.EloquentProductRepository.Update` has the same gap: it does not model the constraint errors the database raises on save.
- `ElasticSearch.QueryOf` passes any window through, including a negative offset the engine would reject.
- `ElasticSearch.QueryOf` models an empty filter list in place of an absent `filter` key. The engine treats the two alike.
- `Services.ProductService.Delete` reports NotFound as a returned error, where the source throws.
- `Services.ProductService.Update` does the same: it returns NotFound instead of throwing.
- `Repository.EloquentProductRepository.Update` and `Repository.EloquentProductRepository.Delete` return `Err(NotFound(id))` where the source throws `ModelNotFoundException` (app/Repositories/EloquentProductRepository.php:30,40).
- `getAll`, `uploadImage`, the controller and routes, the reindex command, the migration, the factory and the service provider are left out. They are outside the synchronisation and coherence core.
- Eloquent's own `restore` and `forceDelete` store operations are left out, since the repository never calls them. Their observer handlers are modelled.
- `Observer.ProductObserver.OnRestored` keeps `product_<id>`, as the `restored` handler does. A store-level restore still drops the cached copy: `restore()` clears `deleted_at` and saves, and that dirty save fires `updated`, whose handler forgets the key, before `restored` fires. A restore therefore dispatches two syncs. The model has no restore operation, so this sequence is not modelled.
- `Repository.EloquentProductRepository.Create` stores `Fillable(data)` as given. It does not apply the column defaults from the migration, `status` `'active'` and a null `description`, and it adds no timestamps.
