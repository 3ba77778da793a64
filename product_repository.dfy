/** The record store adapter. Lookups include soft-deleted records; update
    and delete of an id the lookup cannot see fail with NotFound before
    anything changes. Each mutation that Eloquent persists fires its
    lifecycle event into the registered observer. */
module Repository {
  import opened Values
  import opened Products
  import opened AppCache
  import opened Jobs
  import opened Observer

  class EloquentProductRepository {
    /** The stored records by id, soft-deleted ones included. */
    var records: map<int, Product>
    /** The next auto-increment id. */
    var nextId: int
    /** The observer registered for the model's events. */
    const observer: ProductObserver

    ghost predicate Valid()
      reads this
    {
      && nextId >= 1
      && forall id :: id in records ==> id < nextId && records[id].id == id
    }

    constructor (observer: ProductObserver)
      ensures Valid() && records == map[] && nextId == 1 && this.observer == observer
    {
      records, nextId := map[], 1;
      this.observer := observer;
    }

    /** `Product::withTrashed()->find($id)`. */
    method Find(id: int) returns (r: Option<Product>)
      requires Valid()
      ensures r.Some? <==> id in records
      ensures r.Some? ==> r.value == records[id] && r.value.id == id
    {
      r := if id in records then Some(records[id]) else None;
    }

    /** `Product::create($data)`: a new live record with the fillable part of
        the data, under a fresh id; fires `created`. */
    method Create(data: Attributes) returns (p: Product)
      requires Valid()
      modifies this, observer.cache, observer.queue
      ensures Valid()
      ensures p == Product(old(nextId), Fillable(data), false)
      ensures p.id !in old(records) && records == old(records)[p.id := p]
      ensures observer.queue.tasks == old(observer.queue.tasks) + [Sync(p)]
      ensures observer.cache.items == old(observer.cache.items) && observer.cache.tagged == map[]
    {
      p := Product(nextId, Fill(map[], data), false);
      records := records[nextId := p];
      nextId := nextId + 1;
      observer.Handle(Created, p);
    }

    /** Merges the fillable part of the data into the record, lookup included
        soft-deleted ones. Eloquent saves, and fires `updated`, only when an
        attribute actually changes. */
    method Update(id: int, data: Attributes) returns (r: Result<Product>)
      requires Valid()
      modifies this, observer.cache, observer.queue
      ensures Valid() && nextId == old(nextId)
      ensures id !in old(records) ==>
        && r == Err(NotFound(id))
        && unchanged(this) && unchanged(observer.cache) && unchanged(observer.queue)
      ensures id in old(records) ==>
        && r == Ok(old(records[id]).(attributes := Fill(old(records[id]).attributes, data)))
        && records == old(records)[id := r.value]
      ensures id in old(records) && r.value != old(records[id]) ==>
        && observer.queue.tasks == old(observer.queue.tasks) + [Sync(r.value)]
        && observer.cache.items == old(observer.cache.items) - {ProductKey(id)}
        && observer.cache.tagged == map[]
      ensures id in old(records) && r.value == old(records[id]) ==>
        unchanged(observer.cache) && unchanged(observer.queue)
    {
      var found := Find(id);
      if found.None? {
        return Err(NotFound(id));
      }
      var before := found.value;
      var after := before.(attributes := Fill(before.attributes, data));
      if after != before {
        records := records[id := after];
        observer.Handle(Updated, after);
      }
      r := Ok(after);
    }

    /** Soft delete: the record stays, marked trashed, and `deleted` fires. */
    method Delete(id: int) returns (r: Result<bool>)
      requires Valid()
      modifies this, observer.cache, observer.queue
      ensures Valid() && nextId == old(nextId)
      ensures id !in old(records) ==>
        && r == Err(NotFound(id))
        && unchanged(this) && unchanged(observer.cache) && unchanged(observer.queue)
      ensures id in old(records) ==>
        && r == Ok(true)
        && records == old(records)[id := old(records[id]).(trashed := true)]
        && observer.queue.tasks == old(observer.queue.tasks) + [Remove(id)]
        && observer.cache.items == old(observer.cache.items) - {ProductKey(id)}
        && observer.cache.tagged == map[]
    {
      var found := Find(id);
      if found.None? {
        return Err(NotFound(id));
      }
      var p := found.value.(trashed := true);
      records := records[id := p];
      observer.Handle(Deleted, p);
      r := Ok(true);
    }
  }
}
