/** The change notifier: one handler per record lifecycle event, each
    dispatching exactly one propagation task and invalidating the cache. */
module Observer {
  import opened Products
  import opened AppCache
  import opened Jobs

  datatype Event = Created | Updated | Deleted | Restored | ForceDeleted

  /** The task an event dispatches: a sync for created, updated and restored,
      a removal by id for deleted and force-deleted. */
  function TaskFor(ev: Event, p: Product): (t: Task)
    ensures t.Sync? <==> ev in {Created, Updated, Restored}
    ensures t.Sync? ==> t.product == p
    ensures t.Remove? ==> t.id == p.id
  {
    match ev
    case Created => Sync(p)
    case Updated => Sync(p)
    case Restored => Sync(p)
    case Deleted => Remove(p.id)
    case ForceDeleted => Remove(p.id)
  }

  /** Whether an event also forgets the record's single-item entry. */
  predicate ForgetsItem(ev: Event) {
    ev in {Updated, Deleted, ForceDeleted}
  }

  class ProductObserver {
    const cache: Cache
    const queue: Queue

    constructor (cache: Cache, queue: Queue)
      ensures this.cache == cache && this.queue == queue
    {
      this.cache := cache;
      this.queue := queue;
    }

    method OnCreated(p: Product)
      modifies cache, queue
      ensures queue.tasks == old(queue.tasks) + [Sync(p)]
      ensures cache.items == old(cache.items) && cache.tagged == map[]
    {
      queue.Dispatch(Sync(p));
      cache.FlushSearchTag();
    }

    method OnUpdated(p: Product)
      modifies cache, queue
      ensures queue.tasks == old(queue.tasks) + [Sync(p)]
      ensures cache.items == old(cache.items) - {ProductKey(p.id)} && cache.tagged == map[]
    {
      queue.Dispatch(Sync(p));
      cache.Forget(ProductKey(p.id));
      cache.FlushSearchTag();
    }

    method OnDeleted(p: Product)
      modifies cache, queue
      ensures queue.tasks == old(queue.tasks) + [Remove(p.id)]
      ensures cache.items == old(cache.items) - {ProductKey(p.id)} && cache.tagged == map[]
    {
      queue.Dispatch(Remove(p.id));
      cache.Forget(ProductKey(p.id));
      cache.FlushSearchTag();
    }

    method OnRestored(p: Product)
      modifies cache, queue
      ensures queue.tasks == old(queue.tasks) + [Sync(p)]
      ensures cache.items == old(cache.items) && cache.tagged == map[]
    {
      queue.Dispatch(Sync(p));
      cache.FlushSearchTag();
    }

    method OnForceDeleted(p: Product)
      modifies cache, queue
      ensures queue.tasks == old(queue.tasks) + [Remove(p.id)]
      ensures cache.items == old(cache.items) - {ProductKey(p.id)} && cache.tagged == map[]
    {
      queue.Dispatch(Remove(p.id));
      cache.Forget(ProductKey(p.id));
      cache.FlushSearchTag();
    }

    /** The event dispatcher's call into the observer: exactly one task, the
        whole search tag group flushed, the single-item entry forgotten for
        the events that change or remove a stored record. */
    method Handle(ev: Event, p: Product)
      modifies cache, queue
      ensures queue.tasks == old(queue.tasks) + [TaskFor(ev, p)]
      ensures cache.tagged == map[]
      ensures cache.items == if ForgetsItem(ev) then old(cache.items) - {ProductKey(p.id)} else old(cache.items)
    {
      match ev
      case Created => OnCreated(p);
      case Updated => OnUpdated(p);
      case Deleted => OnDeleted(p);
      case Restored => OnRestored(p);
      case ForceDeleted => OnForceDeleted(p);
    }
  }
}
