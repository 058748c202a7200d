/** SearchableMixin of app/models.py: the commit hooks that mirror added,
    updated and deleted searchable objects into the search index, and the
    `search` class method that turns the engine's ids back into rows in the
    engine's order. */
module SearchableMixin {
  import opened Util
  import Search
  import Models

  /** Post's `__tablename__` and `__searchable__`. */
  const PostTable: string := "post"
  const PostSearchable: seq<string> := ["body"]

  /** A post row as the index helpers see it. */
  function PostModel(p: Models.Post): (m: Search.Model)
    ensures Search.IsSearchable(m) && Search.WellFormed(m)
  {
    Search.Model(PostTable, p.id, map["body" := p.body], Some(PostSearchable))
  }

  /** A post is indexed under ("post", id) with exactly one field, its body. */
  lemma PostDocument(p: Models.Post)
    ensures Search.DocumentOf(PostModel(p)) == map["body" := p.body]
  {
  }

  /** The objects a session is about to insert, update and delete. */
  datatype Changes = Changes(add: seq<Search.Model>, update: seq<Search.Model>,
                             delete: seq<Search.Model>)

  ghost predicate AllWellFormed(ms: seq<Search.Model>) {
    forall m | m in ms :: Search.WellFormed(m)
  }

  // ---------------------------------------------------------------------
  // What the replay after a commit does to the index

  function Key(m: Search.Model): Search.Key {
    (m.tablename, m.id)
  }

  /** One add_to_index call for a searchable object. */
  function Upsert(docs: map<Search.Key, Search.Document>, m: Search.Model, configured: bool)
    : map<Search.Key, Search.Document>
    requires Search.WellFormed(m)
  {
    if configured && Search.IsSearchable(m) then docs[Key(m) := Search.DocumentOf(m)] else docs
  }

  /** One remove_from_index call for a searchable object. */
  function Remove(docs: map<Search.Key, Search.Document>, m: Search.Model, configured: bool)
    : map<Search.Key, Search.Document>
  {
    if configured && Search.IsSearchable(m) then docs - {Key(m)} else docs
  }

  /** add_to_index for each object of `ms`, first to last. */
  function UpsertAll(docs: map<Search.Key, Search.Document>, ms: seq<Search.Model>, configured: bool)
    : map<Search.Key, Search.Document>
    requires AllWellFormed(ms)
  {
    if ms == [] then docs
    else Upsert(UpsertAll(docs, ms[..|ms| - 1], configured), ms[|ms| - 1], configured)
  }

  /** remove_from_index for each object of `ms`, first to last. */
  function RemoveAll(docs: map<Search.Key, Search.Document>, ms: seq<Search.Model>, configured: bool)
    : map<Search.Key, Search.Document>
  {
    if ms == [] then docs
    else Remove(RemoveAll(docs, ms[..|ms| - 1], configured), ms[|ms| - 1], configured)
  }

  /** after_commit: additions, then updates, then deletions. */
  function Replay(docs: map<Search.Key, Search.Document>, ch: Changes, configured: bool)
    : map<Search.Key, Search.Document>
    requires AllWellFormed(ch.add) && AllWellFormed(ch.update)
  {
    RemoveAll(UpsertAll(UpsertAll(docs, ch.add, configured), ch.update, configured),
              ch.delete, configured)
  }

  /** The searchable objects among `ms` touch exactly their own keys. */
  ghost predicate Touches(ms: seq<Search.Model>, k: Search.Key) {
    exists m | m in ms :: Search.IsSearchable(m) && Key(m) == k
  }

  lemma {:induction false} UpsertAllUnconfigured(docs: map<Search.Key, Search.Document>,
                                                 ms: seq<Search.Model>)
    requires AllWellFormed(ms)
    ensures UpsertAll(docs, ms, false) == docs
  {
    if ms != [] {
      UpsertAllUnconfigured(docs, ms[..|ms| - 1]);
    }
  }

  lemma {:induction false} RemoveAllUnconfigured(docs: map<Search.Key, Search.Document>,
                                                 ms: seq<Search.Model>)
    ensures RemoveAll(docs, ms, false) == docs
  {
    if ms != [] {
      RemoveAllUnconfigured(docs, ms[..|ms| - 1]);
    }
  }

  /** Every searchable object passed to add_to_index ends up with a document. */
  lemma {:induction false} UpsertAllPresent(docs: map<Search.Key, Search.Document>,
                                            ms: seq<Search.Model>, k: Search.Key)
    requires AllWellFormed(ms)
    requires Touches(ms, k) || k in docs
    ensures k in UpsertAll(docs, ms, true)
  {
    if ms != [] {
      var init := ms[..|ms| - 1];
      var last := ms[|ms| - 1];
      if !(Search.IsSearchable(last) && Key(last) == k) {
        if k !in docs {
          var m :| m in ms && Search.IsSearchable(m) && Key(m) == k;
          var i :| 0 <= i < |ms| && ms[i] == m;
          assert i < |ms| - 1;
          assert init[i] == m;
        }
        assert forall x | x in init :: x in ms;
        UpsertAllPresent(docs, init, k);
      }
    }
  }

  /** Keys that no searchable object touches keep their entry (or absence). */
  lemma {:induction false} UpsertAllElsewhere(docs: map<Search.Key, Search.Document>,
                                              ms: seq<Search.Model>, k: Search.Key, configured: bool)
    requires AllWellFormed(ms)
    requires !Touches(ms, k)
    ensures var r := UpsertAll(docs, ms, configured);
      (k in r <==> k in docs) && (k in docs ==> r[k] == docs[k])
  {
    if ms != [] {
      var init := ms[..|ms| - 1];
      assert forall x | x in init :: x in ms;
      assert ms[|ms| - 1] in ms;
      UpsertAllElsewhere(docs, init, k, configured);
    }
  }

  lemma {:induction false} RemoveAllElsewhere(docs: map<Search.Key, Search.Document>,
                                              ms: seq<Search.Model>, k: Search.Key, configured: bool)
    requires !Touches(ms, k)
    ensures var r := RemoveAll(docs, ms, configured);
      (k in r <==> k in docs) && (k in docs ==> r[k] == docs[k])
  {
    if ms != [] {
      var init := ms[..|ms| - 1];
      assert forall x | x in init :: x in ms;
      assert ms[|ms| - 1] in ms;
      RemoveAllElsewhere(docs, init, k, configured);
    }
  }

  /** Every searchable object passed to remove_from_index has no document afterwards. */
  lemma {:induction false} RemoveAllAbsent(docs: map<Search.Key, Search.Document>,
                                           ms: seq<Search.Model>, k: Search.Key)
    requires Touches(ms, k) || k !in docs
    ensures k !in RemoveAll(docs, ms, true)
  {
    if ms != [] {
      var init := ms[..|ms| - 1];
      var last := ms[|ms| - 1];
      if !(Search.IsSearchable(last) && Key(last) == k) {
        if k in docs {
          var m :| m in ms && Search.IsSearchable(m) && Key(m) == k;
          var i :| 0 <= i < |ms| && ms[i] == m;
          assert i < |ms| - 1;
          assert init[i] == m;
        }
        RemoveAllAbsent(docs, init, k);
      }
    }
  }

  /** Upserting `a` and then `b` is upserting `a + b`. */
  lemma {:induction false} UpsertAllAppend(docs: map<Search.Key, Search.Document>,
                                           a: seq<Search.Model>, b: seq<Search.Model>, configured: bool)
    requires AllWellFormed(a) && AllWellFormed(b)
    ensures AllWellFormed(a + b)
    ensures UpsertAll(UpsertAll(docs, a, configured), b, configured) == UpsertAll(docs, a + b, configured)
  {
    if b != [] {
      var b' := b[..|b| - 1];
      assert forall x | x in b' :: x in b;
      assert (a + b)[..|a + b| - 1] == a + b';
      assert (a + b)[|a + b| - 1] == b[|b| - 1];
      UpsertAllAppend(docs, a, b', configured);
    } else {
      assert a + b == a;
    }
  }

  /** The document a key ends up with is the payload of the last searchable
      object with that key passed to add_to_index. */
  lemma {:induction false} UpsertAllLast(docs: map<Search.Key, Search.Document>,
                                         ms: seq<Search.Model>, i: int)
    requires AllWellFormed(ms)
    requires 0 <= i < |ms| && Search.IsSearchable(ms[i])
    requires forall j | i < j < |ms| :: !(Search.IsSearchable(ms[j]) && Key(ms[j]) == Key(ms[i]))
    ensures Key(ms[i]) in UpsertAll(docs, ms, true)
    ensures UpsertAll(docs, ms, true)[Key(ms[i])] == Search.DocumentOf(ms[i])
  {
    if i < |ms| - 1 {
      var init := ms[..|ms| - 1];
      assert forall x | x in init :: x in ms;
      assert init[i] == ms[i];
      UpsertAllLast(docs, init, i);
    }
  }

  /** What one commit does to the index: nothing without a client; with one,
      deleted searchable objects lose their document, added or updated ones
      that were not also deleted have one, and every other key is untouched. */
  lemma ReplaySpec(docs: map<Search.Key, Search.Document>, ch: Changes, configured: bool,
                   k: Search.Key)
    requires AllWellFormed(ch.add) && AllWellFormed(ch.update)
    ensures !configured ==> Replay(docs, ch, configured) == docs
    ensures configured && Touches(ch.delete, k) ==> k !in Replay(docs, ch, configured)
    ensures (configured && (Touches(ch.add, k) || Touches(ch.update, k)) && !Touches(ch.delete, k))
              ==> k in Replay(docs, ch, configured)
    ensures !Touches(ch.add, k) && !Touches(ch.update, k) && !Touches(ch.delete, k) ==>
              var r := Replay(docs, ch, configured);
              (k in r <==> k in docs) && (k in docs ==> r[k] == docs[k])
  {
    var afterAdd := UpsertAll(docs, ch.add, configured);
    var afterUpdate := UpsertAll(afterAdd, ch.update, configured);
    if !configured {
      UpsertAllUnconfigured(docs, ch.add);
      UpsertAllUnconfigured(afterAdd, ch.update);
      RemoveAllUnconfigured(afterUpdate, ch.delete);
    } else {
      if Touches(ch.delete, k) {
        RemoveAllAbsent(afterUpdate, ch.delete, k);
      }
      if (Touches(ch.add, k) || Touches(ch.update, k)) && !Touches(ch.delete, k) {
        if Touches(ch.add, k) {
          UpsertAllPresent(docs, ch.add, k);
        }
        UpsertAllPresent(afterAdd, ch.update, k);
        RemoveAllElsewhere(afterUpdate, ch.delete, k, configured);
      }
    }
    if !Touches(ch.add, k) && !Touches(ch.update, k) && !Touches(ch.delete, k) {
      UpsertAllElsewhere(docs, ch.add, k, configured);
      UpsertAllElsewhere(afterAdd, ch.update, k, configured);
      RemoveAllElsewhere(afterUpdate, ch.delete, k, configured);
    }
  }

  /** With a client, a key that a commit adds or updates and does not delete
      holds the payload of the last searchable object with that key among the
      additions followed by the updates. */
  lemma ReplayContent(docs: map<Search.Key, Search.Document>, ch: Changes, i: int)
    requires AllWellFormed(ch.add) && AllWellFormed(ch.update)
    requires 0 <= i < |ch.add + ch.update|
    requires Search.IsSearchable((ch.add + ch.update)[i])
    requires forall j | i < j < |ch.add + ch.update| ::
               !(Search.IsSearchable((ch.add + ch.update)[j])
                 && Key((ch.add + ch.update)[j]) == Key((ch.add + ch.update)[i]))
    requires !Touches(ch.delete, Key((ch.add + ch.update)[i]))
    ensures AllWellFormed(ch.add + ch.update)
    ensures var m := (ch.add + ch.update)[i];
      Key(m) in Replay(docs, ch, true) && Replay(docs, ch, true)[Key(m)] == Search.DocumentOf(m)
  {
    var ms := ch.add + ch.update;
    UpsertAllAppend(docs, ch.add, ch.update, true);
    UpsertAllLast(docs, ms, i);
    RemoveAllElsewhere(UpsertAll(docs, ms, true), ch.delete, Key(ms[i]), true);
  }

  /** A post a commit adds or updates, with no later change and no deletion
      of the same row, is indexed under ("post", id) with its body. */
  lemma CommittedPostIndexed(docs: map<Search.Key, Search.Document>, ch: Changes,
                             p: Models.Post, i: int)
    requires AllWellFormed(ch.add) && AllWellFormed(ch.update)
    requires 0 <= i < |ch.add + ch.update| && (ch.add + ch.update)[i] == PostModel(p)
    requires forall j | i < j < |ch.add + ch.update| ::
               !(Search.IsSearchable((ch.add + ch.update)[j])
                 && Key((ch.add + ch.update)[j]) == (PostTable, p.id))
    requires !Touches(ch.delete, (PostTable, p.id))
    ensures (PostTable, p.id) in Replay(docs, ch, true)
    ensures Replay(docs, ch, true)[(PostTable, p.id)] == map["body" := p.body]
  {
    ReplayContent(docs, ch, i);
    PostDocument(p);
  }

  // ---------------------------------------------------------------------
  // The session's commit hooks

  /** The database session, holding the snapshot `_changes` between the two hooks. */
  class Session {
    var changes: Option<Changes>

    /** before_commit: snapshot the pending objects, which the session forgets on commit. */
    method BeforeCommit(added: seq<Search.Model>, dirty: seq<Search.Model>,
                        deleted: seq<Search.Model>)
      modifies this
      ensures changes == Some(Changes(added, dirty, deleted))
    {
      changes := Some(Changes(added, dirty, deleted));
    }

    /** after_commit: replay the snapshot into the index, then drop it. */
    method AfterCommit(engine: Search.Engine)
      requires changes.Some?
      requires AllWellFormed(changes.value.add) && AllWellFormed(changes.value.update)
      modifies this, engine
      ensures changes == None
      ensures engine.docs == Replay(old(engine.docs), old(changes.value), engine.configured)
    {
      var ch := changes.value;
      var configured := engine.configured;
      ghost var start := engine.docs;
      for i := 0 to |ch.add|
        invariant engine.docs == UpsertAll(start, ch.add[..i], configured)
      {
        var obj := ch.add[i];
        assert ch.add[..i + 1][..i] == ch.add[..i];
        if obj.searchable.Some? {
          engine.AddToIndex(obj.tablename, obj);
        }
      }
      assert ch.add[..|ch.add|] == ch.add;
      ghost var afterAdd := engine.docs;
      for i := 0 to |ch.update|
        invariant engine.docs == UpsertAll(afterAdd, ch.update[..i], configured)
      {
        var obj := ch.update[i];
        assert ch.update[..i + 1][..i] == ch.update[..i];
        if obj.searchable.Some? {
          engine.AddToIndex(obj.tablename, obj);
        }
      }
      assert ch.update[..|ch.update|] == ch.update;
      ghost var afterUpdate := engine.docs;
      for i := 0 to |ch.delete|
        invariant engine.docs == RemoveAll(afterUpdate, ch.delete[..i], configured)
      {
        var obj := ch.delete[i];
        assert ch.delete[..i + 1][..i] == ch.delete[..i];
        if obj.searchable.Some? {
          engine.RemoveFromIndex(obj.tablename, obj);
        }
      }
      assert ch.delete[..|ch.delete|] == ch.delete;
      changes := None;
    }
  }

  // ---------------------------------------------------------------------
  // SearchableMixin.search

  /** The position of `id` among the engine's ids (the CASE ... value=id of
      the ORDER BY); ids the engine did not return sort last. */
  function Rank(ids: seq<int>, id: int): nat {
    match FirstIndex(ids, (x: int) => x == id)
    case Some(i) => i
    case None => |ids|
  }

  /** The rows whose id the engine returned, ordered by the engine's ranking;
      ids with no row are dropped. */
  function Rehydrate(posts: seq<Models.Post>, ids: seq<int>): (r: seq<Models.Post>)
    ensures forall p | p in r :: p in posts && p.id in ids
    ensures forall p | p in posts && p.id in ids :: p in r
    ensures forall i, j | 0 <= i < j < |r| :: Rank(ids, r[i].id) <= Rank(ids, r[j].id)
    ensures Distinct(posts) ==> Distinct(r)
  {
    SortByKey(Filter(posts, (p: Models.Post) => p.id in ids), (p: Models.Post) => Rank(ids, p.id))
  }

  /** With unique post ids the re-hydrated rows follow the engine's order strictly. */
  lemma RehydrateKeepsEngineOrder(posts: seq<Models.Post>, ids: seq<int>, i: int, j: int)
    requires Models.UniquePostIds(posts)
    requires 0 <= i < j < |Rehydrate(posts, ids)|
    ensures var r := Rehydrate(posts, ids);
      Rank(ids, r[i].id) < Rank(ids, r[j].id) && ids[Rank(ids, r[i].id)] == r[i].id
  {
  }

  /** Post.search: query the "post" index, then load the matching rows in
      the engine's order; no rows at all when the engine reports no hits. */
  function SearchPosts(configured: bool, engine: Search.Request -> Search.Response,
                       posts: seq<Models.Post>, expression: string, page: int, perPage: int)
    : (r: (seq<Models.Post>, int))
    ensures !configured ==> r == ([], 0)
    ensures var q := Search.QueryIndex(configured, engine, PostTable, expression, page, perPage);
      && r.1 == q.1
      && (q.1 == 0 ==> r.0 == [])
      && (q.1 != 0 ==> r.0 == Rehydrate(posts, q.0))
  {
    var (ids, total) := Search.QueryIndex(configured, engine, PostTable, expression, page, perPage);
    if total == 0 then ([], 0) else (Rehydrate(posts, ids), total)
  }
}
