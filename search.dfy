/** The full-text index helpers of app/search.py. The search engine client
    is either absent (unconfigured) or holds a map from (index name, document
    id) to the indexed document; relevance ranking stays inside the engine
    and is passed in as an oracle from requests to responses. */
module Search {
  import opened Util

  /** An ORM object as the index helpers see it: its table name, primary
      key, text attributes, and the `__searchable__` field list when its
      class mixes in SearchableMixin. */
  datatype Model = Model(tablename: string, id: int, fields: map<string, string>,
                         searchable: Option<seq<string>>)

  predicate IsSearchable(m: Model) {
    m.searchable.Some?
  }

  /** Every field named in `__searchable__` is an attribute of the object. */
  predicate WellFormed(m: Model) {
    m.searchable.Some? ==> forall f | f in m.searchable.value :: f in m.fields
  }

  type Document = map<string, string>
  type Key = (string, int)

  /** The document stored for a searchable object. */
  function DocumentOf(m: Model): Document
    requires IsSearchable(m) && WellFormed(m)
  {
    map f | f in m.searchable.value :: m.fields[f]
  }

  /** The loop of add_to_index that copies every searchable field into the
      payload; the payload has exactly those keys, each with the object's value. */
  method BuildPayload(m: Model) returns (payload: Document)
    requires IsSearchable(m) && WellFormed(m)
    ensures payload.Keys == set f | f in m.searchable.value
    ensures forall f | f in payload :: payload[f] == m.fields[f]
    ensures payload == DocumentOf(m)
  {
    var fields := m.searchable.value;
    payload := map[];
    var i := 0;
    while i < |fields|
      invariant 0 <= i <= |fields|
      invariant payload.Keys == set f | f in fields[..i]
      invariant forall f | f in payload :: payload[f] == m.fields[f]
    {
      assert fields[..i + 1] == fields[..i] + [fields[i]];
      payload := payload[fields[i] := m.fields[fields[i]]];
      i := i + 1;
    }
    assert fields[..i] == fields;
  }

  /** The search engine client; `configured` is false when no engine URL was
      given and the client is None. */
  class Engine {
    const configured: bool
    var docs: map<Key, Document>

    constructor (configured: bool)
      ensures this.configured == configured && docs == map[]
    {
      this.configured := configured;
      docs := map[];
    }

    /** Upserts the object's document under (index, id); a no-op without a client. */
    method AddToIndex(index: string, m: Model)
      requires IsSearchable(m) && WellFormed(m)
      modifies this
      ensures configured ==> docs == old(docs)[(index, m.id) := DocumentOf(m)]
      ensures !configured ==> docs == old(docs)
    {
      if !configured {
        return;
      }
      var payload := BuildPayload(m);
      docs := docs[(index, m.id) := payload];
    }

    /** Deletes the document under (index, id); a no-op without a client. */
    method RemoveFromIndex(index: string, m: Model)
      modifies this
      ensures configured ==> docs == old(docs) - {(index, m.id)}
      ensures !configured ==> docs == old(docs)
    {
      if !configured {
        return;
      }
      docs := docs - {(index, m.id)};
    }
  }

  /** What the engine is asked: a multi-match query over every field of
      one index, for the window of hits [from, from + size). */
  datatype Request = Request(index: string, query: string, from: int, size: int)
  datatype Hit = Hit(id: int)
  datatype Response = Response(hits: seq<Hit>, total: int)

  /** The request query_index sends for a 1-based page. */
  function PageRequest(index: string, query: string, page: int, perPage: int): (r: Request)
    ensures r.index == index && r.query == query && r.size == perPage
    ensures r.from == (page - 1) * perPage
    ensures page >= 1 && perPage >= 0 ==> 0 <= r.from
  {
    Request(index, query, (page - 1) * perPage, perPage)
  }

  /** Consecutive pages ask for adjacent windows, so the pages of one query
      neither overlap nor leave gaps. */
  lemma PagesAreAdjacent(index: string, query: string, page: int, perPage: int)
    ensures PageRequest(index, query, page + 1, perPage).from
         == PageRequest(index, query, page, perPage).from + perPage
  {
  }

  /** query_index: the ids of the engine's hits, in the engine's order, and
      the engine's total; ([], 0) when there is no client. */
  function QueryIndex(configured: bool, engine: Request -> Response,
                      index: string, query: string, page: int, perPage: int): (r: (seq<int>, int))
    ensures !configured ==> r == ([], 0)
    ensures configured ==>
      var resp := engine(PageRequest(index, query, page, perPage));
      && r.1 == resp.total
      && |r.0| == |resp.hits|
      && forall i | 0 <= i < |r.0| :: r.0[i] == resp.hits[i].id
  {
    if !configured then ([], 0)
    else
      var resp := engine(PageRequest(index, query, page, perPage));
      (seq(|resp.hits|, i requires 0 <= i < |resp.hits| => resp.hits[i].id), resp.total)
  }
}
