/** Propagation tasks and the queue they are dispatched to. The queue is an
    outbox: dispatching appends, workers are not modelled. */
module Jobs {
  import opened Products
  import opened ElasticSearch

  /** `SyncProductToElasticsearch($product)` or `RemoveProductFromElasticsearch($id)`. */
  datatype Task = Sync(product: Product) | Remove(id: int)

  class Queue {
    /** Every task dispatched so far, oldest first. */
    var tasks: seq<Task>

    constructor ()
      ensures tasks == []
    {
      tasks := [];
    }

    method Dispatch(t: Task)
      modifies this
      ensures tasks == old(tasks) + [t]
    {
      tasks := tasks + [t];
    }
  }

  /** The index operation a remove task performs. */
  function RemoveOp(id: int): IndexOp {
    Delete(id)
  }

  /** `RemoveProductFromElasticsearch::handle`: delegates to `deleteProduct`,
      which swallows a client failure, so the job completes whether or not
      the document went away. */
  method HandleRemove(id: int, es: ElasticSearchService, reached: bool)
    modifies es
    ensures reached ==> es.index == Apply(old(es.index), RemoveOp(id))
    ensures !reached ==> es.index == old(es.index)
  {
    es.DeleteProduct(id, reached);
  }
}
