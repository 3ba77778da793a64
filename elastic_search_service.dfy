/** The search index and the service that manages it: index existence,
    creation and deletion, document upsert and removal, and the translation
    of a filter request into a bool query. The search engine itself is
    external: its index is an abstract state (absent, or a map from record id
    to document) and its query evaluation a parameter. */
module ElasticSearch {
  import opened Values
  import opened Products

  const INDEX_NAME := "products"

  /** The `products` index: it does not exist, or it holds one document per id. */
  datatype IndexState = Absent | Present(docs: map<int, Document>)

  function DocAt(s: IndexState, id: int): Option<Document> {
    if s.Present? && id in s.docs then Some(s.docs[id]) else None
  }

  // ---------------------------------------------------------------------
  // The query
  // ---------------------------------------------------------------------

  datatype Clause =
    | MultiMatch(query: Value, fields: seq<string>)
    | Term(field: string, value: Value)
    | Range(field: string, gte: Option<Value>, lte: Option<Value>)

  datatype SortEntry = SortEntry(field: Value, order: Value)

  /** The request body: the result window, the `bool` query's `must` and
      `filter` lists, and the sort list. An empty `filter` stands for the key
      being absent from the body. */
  datatype Query = Query(
    index: string,
    from: int,
    size: int,
    must: seq<Clause>,
    filter: seq<Clause>,
    sort: seq<SortEntry>)

  /** What the engine answers: the total hit count and the page of documents. */
  datatype Response = Response(total: int, hits: seq<Document>)

  /** The engine's evaluation of a query over the index's documents. */
  type Engine = (map<int, Document>, Query) -> Response

  /** The full-text fields, the name boosted three times. */
  const TEXT_FIELDS: seq<string> := ["name^3", "description"]

  /** `$filters['order'] ?? 'asc'`: the default for a missing or null order. */
  function SortOrder(f: Params): (r: Value)
    ensures (forall i :: 0 <= i < |f| ==> f[i].0 != "order") ==> r == Str("asc")
    ensures Get(f, "order") == Some(Null) ==> r == Str("asc")
    ensures Get(f, "order").Some? && Get(f, "order").value != Null ==> r == Get(f, "order").value
    ensures r != Null
  {
    GetFinds(f, "order");
    match Get(f, "order")
    case Some(v) => if v.Null? then Str("asc") else v
    case None => Str("asc")
  }

  /** The query built for a filter request and a page. */
  function QueryOf(f: Params, page: int, perPage: int): (q: Query)
    // the result window
    ensures q.index == INDEX_NAME && q.from == (page - 1) * perPage && q.size == perPage
    // free text: one multi_match over name^3 and description, or nothing
    ensures |q.must| == (if EmptyParam(f, "q") then 0 else 1)
    ensures forall c :: c in q.must ==> c == MultiMatch(Param(f, "q"), ["name^3", "description"])
    // the exact and range filters go to `filter`, never to `must`
    ensures forall c :: c in q.must ==> !c.Term? && !c.Range?
    ensures q.filter == FilterClauses(f)
    // sort: one entry for a non-empty sort field, none otherwise
    ensures |q.sort| == (if EmptyParam(f, "sort") then 0 else 1)
    ensures forall e :: e in q.sort ==> e == SortEntry(Param(f, "sort"), SortOrder(f))
  {
    Query(INDEX_NAME, (page - 1) * perPage, perPage, TextQuery(f), FilterClauses(f), SortEntries(f))
  }

  /** The `filter` list of the bool query: exact terms on category and
      status and a price range, each present exactly when asked for. */
  function FilterClauses(f: Params): (r: seq<Clause>)
    // nothing here is scored
    ensures forall c :: c in r ==> !c.MultiMatch?
    // exact filters, present exactly when the parameter is non-empty
    ensures (exists c :: c in r && c.Term? && c.field == "category.keyword") <==> !EmptyParam(f, "category")
    ensures (exists c :: c in r && c.Term? && c.field == "status") <==> !EmptyParam(f, "status")
    ensures forall c :: c in r && c.Term? ==>
      (c.field == "category.keyword" && c.value == Param(f, "category")) ||
      (c.field == "status" && c.value == Param(f, "status"))
    // the price range: present when either bound is non-empty, each bound when its parameter is
    ensures (exists c :: c in r && c.Range?) <==> (!EmptyParam(f, "min_price") || !EmptyParam(f, "max_price"))
    ensures forall c :: c in r && c.Range? ==>
      && c.field == "price"
      && (c.gte.Some? <==> !EmptyParam(f, "min_price"))
      && (c.lte.Some? <==> !EmptyParam(f, "max_price"))
      && (c.gte.Some? ==> c.gte.value == Param(f, "min_price"))
      && (c.lte.Some? ==> c.lte.value == Param(f, "max_price"))
    // one clause per kind of filter
    ensures |r| ==
      (if EmptyParam(f, "category") then 0 else 1) +
      (if EmptyParam(f, "status") then 0 else 1) +
      (if EmptyParam(f, "min_price") && EmptyParam(f, "max_price") then 0 else 1)
  {
    var exact := ExactFilters(f);
    if EmptyParam(f, "min_price") && EmptyParam(f, "max_price") then
      exact
    else
      var range := PriceRange(f);
      assert forall c :: c in exact + [range] ==> c in exact || c == range;
      exact + [range]
  }

  /** The exact filters: the category term, then the status term. */
  function ExactFilters(f: Params): (r: seq<Clause>)
    ensures forall c :: c in r ==> c.Term?
    ensures (exists c :: c in r && c.field == "category.keyword") <==> !EmptyParam(f, "category")
    ensures (exists c :: c in r && c.field == "status") <==> !EmptyParam(f, "status")
    ensures forall c :: c in r ==>
      (c.field == "category.keyword" && c.value == Param(f, "category")) ||
      (c.field == "status" && c.value == Param(f, "status"))
    ensures |r| == (if EmptyParam(f, "category") then 0 else 1) + (if EmptyParam(f, "status") then 0 else 1)
  {
    var category, status := CategoryFilter(f), StatusFilter(f);
    var r := category + status;
    assert forall c :: c in r ==> c in category || c in status;
    assert category != [] ==> category[0] in r;
    assert status != [] ==> status[0] in r;
    r
  }

  function TextQuery(f: Params): (r: seq<Clause>)
    ensures |r| == (if EmptyParam(f, "q") then 0 else 1)
    ensures forall c :: c in r ==> c == MultiMatch(Param(f, "q"), TEXT_FIELDS)
  {
    if EmptyParam(f, "q") then [] else [MultiMatch(Param(f, "q"), TEXT_FIELDS)]
  }

  function CategoryFilter(f: Params): (r: seq<Clause>)
    ensures |r| == (if EmptyParam(f, "category") then 0 else 1)
    ensures forall c :: c in r ==> c == Term("category.keyword", Param(f, "category"))
  {
    if EmptyParam(f, "category") then [] else [Term("category.keyword", Param(f, "category"))]
  }

  function StatusFilter(f: Params): (r: seq<Clause>)
    ensures |r| == (if EmptyParam(f, "status") then 0 else 1)
    ensures forall c :: c in r ==> c == Term("status", Param(f, "status"))
  {
    if EmptyParam(f, "status") then [] else [Term("status", Param(f, "status"))]
  }

  /** The price range, with a bound for each non-empty price parameter. */
  function PriceRange(f: Params): (c: Clause)
    ensures c.Range? && c.field == "price"
    ensures c.gte.Some? <==> !EmptyParam(f, "min_price")
    ensures c.lte.Some? <==> !EmptyParam(f, "max_price")
    ensures c.gte.Some? ==> c.gte.value == Param(f, "min_price")
    ensures c.lte.Some? ==> c.lte.value == Param(f, "max_price")
  {
    Range("price",
          if EmptyParam(f, "min_price") then None else Some(Param(f, "min_price")),
          if EmptyParam(f, "max_price") then None else Some(Param(f, "max_price")))
  }

  function SortEntries(f: Params): (r: seq<SortEntry>)
    ensures |r| == (if EmptyParam(f, "sort") then 0 else 1)
    ensures forall e :: e in r ==> e == SortEntry(Param(f, "sort"), SortOrder(f))
  {
    if EmptyParam(f, "sort") then [] else [SortEntry(Param(f, "sort"), SortOrder(f))]
  }

  /** What `search` answers: the canned empty result without an index, the
      engine's answer to the built query otherwise. */
  function SearchResult(s: IndexState, f: Params, page: int, perPage: int, engine: Engine): (r: Response)
    ensures s.Absent? ==> r.total == 0 && r.hits == []
    ensures s.Present? ==> r == engine(s.docs, QueryOf(f, page, perPage))
  {
    if s.Absent? then Response(0, []) else engine(s.docs, QueryOf(f, page, perPage))
  }

  // ---------------------------------------------------------------------
  // Index operations on the abstract state
  // ---------------------------------------------------------------------

  /** `indexProduct`: create the index when missing, then write the document. */
  function Upserted(s: IndexState, d: Document): (r: IndexState)
    ensures r.Present?
    ensures DocAt(r, d.id) == Some(d)
    ensures forall k :: k != d.id ==> DocAt(r, k) == DocAt(s, k)
  {
    match s
    case Absent => Present(map[d.id := d])
    case Present(docs) => Present(docs[d.id := d])
  }

  /** `deleteProduct`: remove the document if there; a missing index or a
      missing document is swallowed. */
  function Deleted(s: IndexState, id: int): (r: IndexState)
    ensures r.Present? == s.Present?
    ensures DocAt(r, id) == None
    ensures forall k :: k != id ==> DocAt(r, k) == DocAt(s, k)
    ensures DocAt(s, id).None? ==> r == s
  {
    if s.Present? then Present(s.docs - {id}) else s
  }

  /** Writing the same document again changes nothing. */
  lemma UpsertIdempotent(s: IndexState, d: Document)
    ensures Upserted(Upserted(s, d), d) == Upserted(s, d)
  {
  }

  /** Deleting twice is deleting once. */
  lemma DeleteIdempotent(s: IndexState, id: int)
    ensures Deleted(Deleted(s, id), id) == Deleted(s, id)
  {
  }

  /** An index operation as a propagation task performs it. */
  datatype IndexOp = Upsert(doc: Document) | Delete(id: int) {
    function Id(): int {
      if Upsert? then doc.id else id
    }
  }

  function Apply(s: IndexState, op: IndexOp): IndexState {
    match op
    case Upsert(d) => Upserted(s, d)
    case Delete(id) => Deleted(s, id)
  }

  /** Operations on different records commute. */
  lemma ApplyCommutes(s: IndexState, a: IndexOp, b: IndexOp)
    requires a.Id() != b.Id()
    ensures Apply(Apply(s, a), b) == Apply(Apply(s, b), a)
  {
  }

  /** Applying operations in order, the last one last. */
  function Replay(s: IndexState, ops: seq<IndexOp>): IndexState
    decreases |ops|
  {
    if ops == [] then s else Apply(Replay(s, ops[..|ops| - 1]), ops[|ops| - 1])
  }

  /** The last operation in `ops` on the record `id`, if any. */
  function LatestFor(ops: seq<IndexOp>, id: int): (r: Option<IndexOp>)
    ensures r.Some? ==> r.value in ops && r.value.Id() == id
    ensures r.None? <==> forall i :: 0 <= i < |ops| ==> ops[i].Id() != id
    // no later task concerns the record
    ensures r.Some? ==> exists i :: (0 <= i < |ops| && ops[i] == r.value &&
      forall j :: i < j < |ops| ==> ops[j].Id() != id)
    decreases |ops|
  {
    if ops == [] then None
    else if ops[|ops| - 1].Id() == id then Some(ops[|ops| - 1])
    else
      var init := ops[..|ops| - 1];
      var r := LatestFor(init, id);
      assert r.Some? ==> exists i :: (0 <= i < |ops| && ops[i] == r.value &&
        forall j :: i < j < |ops| ==> ops[j].Id() != id)
      by {
        if r.Some? {
          var i :| 0 <= i < |init| && init[i] == r.value && forall j :: i < j < |init| ==> init[j].Id() != id;
          assert ops[i] == init[i];
          forall j | i < j < |ops| ensures ops[j].Id() != id {
            if j < |init| {
              assert ops[j] == init[j];
            }
          }
        }
      }
      r
  }

  /** Convergence: whatever the interleaving with other records' tasks, a
      record's document is what the last delivered task for that record made
      it. A redelivery counts as a delivery: only a duplicate that follows its
      original is harmless (`DuplicateDeliveryHarmless`), and a late one wins
      (`LateRedeliveryWins`). */
  lemma {:induction false} ReplayConverges(s: IndexState, ops: seq<IndexOp>, id: int)
    ensures DocAt(Replay(s, ops), id) ==
      match LatestFor(ops, id)
      case None => DocAt(s, id)
      case Some(Upsert(d)) => Some(d)
      case Some(Delete(_)) => None
    decreases |ops|
  {
    if ops != [] {
      ReplayConverges(s, ops[..|ops| - 1], id);
    }
  }

  /** The index exists after a replay exactly when it existed before or some
      upsert ran (an upsert creates it; a delete never does). */
  lemma {:induction false} ReplayCreatesIndex(s: IndexState, ops: seq<IndexOp>)
    ensures Replay(s, ops).Present? <==> s.Present? || exists i :: 0 <= i < |ops| && ops[i].Upsert?
    decreases |ops|
  {
    if ops != [] {
      var init := ops[..|ops| - 1];
      ReplayCreatesIndex(s, init);
      if exists i :: 0 <= i < |init| && init[i].Upsert? {
        var i :| 0 <= i < |init| && init[i].Upsert?;
        assert ops[i] == init[i];
      }
      if exists i :: 0 <= i < |ops| && ops[i].Upsert? {
        var i :| 0 <= i < |ops| && ops[i].Upsert?;
        if i < |init| {
          assert init[i] == ops[i];
        }
      }
    }
  }

  /** A sync delivered again after the record's removal brings the removed
      document back: the last delivery wins, whatever its age. */
  lemma LateRedeliveryWins(d: Document)
    ensures DocAt(Replay(Absent, [Upsert(d), Delete(d.id), Upsert(d)]), d.id) == Some(d)
    ensures DocAt(Replay(Absent, [Upsert(d), Delete(d.id)]), d.id) == None
  {
  }

  /** A task delivered twice in a row leaves what one delivery leaves. */
  lemma DuplicateDeliveryHarmless(s: IndexState, ops: seq<IndexOp>, op: IndexOp)
    ensures Replay(s, ops + [op, op]) == Replay(s, ops + [op])
  {
    var once := ops + [op];
    var twice := ops + [op, op];
    assert twice[..|twice| - 1] == once;
    assert once[..|once| - 1] == ops;
    match op
    case Upsert(d) => UpsertIdempotent(Replay(s, ops), d);
    case Delete(id) => DeleteIdempotent(Replay(s, ops), id);
  }

  // ---------------------------------------------------------------------
  // The service
  // ---------------------------------------------------------------------

  class ElasticSearchService {
    /** The engine's `products` index. */
    var index: IndexState

    constructor (initial: IndexState)
      ensures index == initial
    {
      index := initial;
    }

    method IndexExists() returns (b: bool)
      ensures b <==> index.Present?
    {
      b := index.Present?;
    }

    /** Creates the index empty; the engine refuses an existing one. */
    method CreateIndex() returns (r: Result<bool>)
      modifies this
      ensures old(index).Present? ==> r == Err(IndexAlreadyExists) && index == old(index)
      ensures old(index).Absent? ==> r == Ok(true) && index == Present(map[])
    {
      if index.Present? {
        r := Err(IndexAlreadyExists);
      } else {
        index := Present(map[]);
        r := Ok(true);
      }
    }

    /** Drops the index; nothing happens when there is none. */
    method DeleteIndex()
      modifies this
      ensures index == Absent
      ensures old(index).Absent? ==> unchanged(this)
    {
      var present := IndexExists();
      if present {
        index := Absent;
      }
    }

    /** Upserts the record's document, creating the index first if needed. */
    method IndexProduct(p: Product)
      modifies this
      ensures index == Upserted(old(index), ToDocument(p))
      ensures DocAt(old(index), p.id) == Some(ToDocument(p)) ==> unchanged(this)
    {
      var present := IndexExists();
      if !present {
        var _ := CreateIndex();
      }
      assert p.id in index.docs && index.docs[p.id] == ToDocument(p) ==> index.docs[p.id := ToDocument(p)] == index.docs;
      index := Present(index.docs[p.id := ToDocument(p)]);
    }

    /** Removes the record's document. `reached` is the client call's
        outcome: on a connection or server error the exception is swallowed,
        the document stays and the method still returns normally. A missing
        index or document is swallowed the same way and changes nothing. */
    method DeleteProduct(id: int, reached: bool)
      modifies this
      ensures reached ==> index == Deleted(old(index), id)
      ensures !reached ==> index == old(index)
      ensures DocAt(old(index), id).None? ==> unchanged(this)
    {
      if reached && index.Present? && id in index.docs {
        index := Present(index.docs - {id});
      }
    }

    /** Builds the bool query step by step and asks the engine; without an
        index, answers the canned empty result and issues nothing. */
    method Search(filters: Params, page: int, perPage: int, engine: Engine) returns (r: Response, issued: Option<Query>)
      ensures issued.None? <==> index.Absent?
      ensures index.Absent? ==> r == Response(0, [])
      ensures issued.Some? ==> issued.value == QueryOf(filters, page, perPage) && r == engine(index.docs, issued.value)
      ensures r == SearchResult(index, filters, page, perPage, engine)
    {
      var present := IndexExists();
      if !present {
        return Response(0, []), None;
      }
      var q := BuildQuery(filters, page, perPage);
      r := engine(index.docs, q);
      issued := Some(q);
    }
  }

  /** The body `search` sends, built clause by clause as the service does. */
  method BuildQuery(filters: Params, page: int, perPage: int) returns (q: Query)
    ensures q == QueryOf(filters, page, perPage)
  {
    var must: seq<Clause> := [];
    var sort: seq<SortEntry> := [];
    if !EmptyParam(filters, "q") {
      must := must + [MultiMatch(Param(filters, "q"), TEXT_FIELDS)];
    }
    assert must == TextQuery(filters);
    var filter := BuildFilter(filters);
    if !EmptyParam(filters, "sort") {
      var order := SortOrder(filters);
      sort := sort + [SortEntry(Param(filters, "sort"), order)];
    }
    assert sort == SortEntries(filters);
    q := Query(INDEX_NAME, (page - 1) * perPage, perPage, must, filter, sort);
  }

  /** The `filter` list, appended to in the order the service checks the
      parameters. */
  method BuildFilter(filters: Params) returns (filter: seq<Clause>)
    ensures filter == FilterClauses(filters)
  {
    filter := [];
    if !EmptyParam(filters, "category") {
      filter := filter + [Term("category.keyword", Param(filters, "category"))];
    }
    assert filter == CategoryFilter(filters);
    if !EmptyParam(filters, "status") {
      filter := filter + [Term("status", Param(filters, "status"))];
    }
    assert filter == ExactFilters(filters);
    if !EmptyParam(filters, "min_price") || !EmptyParam(filters, "max_price") {
      var gte: Option<Value> := None;
      var lte: Option<Value> := None;
      if !EmptyParam(filters, "min_price") {
        gte := Some(Param(filters, "min_price"));
      }
      if !EmptyParam(filters, "max_price") {
        lte := Some(Param(filters, "max_price"));
      }
      assert Range("price", gte, lte) == PriceRange(filters);
      filter := filter + [Range("price", gte, lte)];
    }
  }
}
