/**
  * The browser-local document store of
  * src/services/adapters/localStorageAdapter.js: named collections of
  * documents, a per-collection id counter (`_meta.nextId`), and
  * get/post/put/patch/delete over REST-like paths.
  *
  * Each operation is first given as a function from the store's state to an
  * `Outcome` (new state and response); the lemmas below are about those
  * functions, and the class `LocalStore` at the end performs the operations
  * step by step, as the adapter does, and is proved to agree with them.
  * The browser's `localStorage` is the `saved` snapshot; the seed file is an
  * optional initial database.
  */
module DocumentStore {
  import opened Wrappers
  import opened JsValues
  import opened Query

  /** The `db` object: the collections and `_meta.nextId`. */
  datatype Db = Db(collections: map<string, seq<Doc>>, nextId: map<string, int>)

  /** The in-memory database and what `localStorage` holds for it. */
  datatype State = State(db: Db, saved: Option<Db>)

  datatype StoreError = InvalidPath | NotFound | Conflict

  /** What an operation returns: one document, or the list of a query. */
  datatype Response = One(doc: Doc) | Many(docs: seq<Doc>)

  datatype Outcome = Outcome(state: State, result: Result<Response, StoreError>)

  const EmptyDb: Db := Db(map[], map[])

  /** `load()`: the stored snapshot, or an empty database. */
  function Load(stored: Option<Db>): Db
  {
    if stored.Some? then stored.value else EmptyDb
  }

  /** Ids are unique by their string form in every collection. */
  predicate AllUnique(db: Db)
  {
    forall c :: c in db.collections ==> UniqueIds(db.collections[c])
  }

  /** The store invariant: the database and the seed it may load keep ids unique. */
  predicate Consistent(st: State, seed: Option<Db>)
  {
    AllUnique(st.db) && (seed.Some? ==> AllUnique(seed.value))
  }

  // ---------------------------------------------------------------------------
  // ensureSeed, ensureCollection, nextId
  // ---------------------------------------------------------------------------

  /** `ensureSeed()`: a database without collections is replaced by the seed, and saved. */
  function SeedStep(st: State, seed: Option<Db>): State
  {
    if seed.Some? && st.db.collections == map[] then State(seed.value, Some(seed.value)) else st
  }

  /**
    * `ensureCollection(db, name)`: a missing collection becomes empty, and a
    * missing counter starts one above the largest numeric id.
    */
  function WithCollection(db: Db, name: string): (r: Db)
    ensures name in r.collections && name in r.nextId
    ensures name in db.collections ==> r.collections == db.collections
    ensures name !in db.collections ==> r.collections == db.collections[name := []]
    ensures name in db.nextId ==> r.nextId == db.nextId
    ensures name !in db.nextId ==> r.nextId == db.nextId[name := MaxNumericId(r.collections[name]) + 1]
  {
    var cols := if name in db.collections then db.collections else db.collections[name := []];
    var ids := if name in db.nextId then db.nextId else db.nextId[name := MaxNumericId(cols[name]) + 1];
    Db(cols, ids)
  }

  /** The state every operation on `name` starts from: seeded, collection ensured. */
  function Prepare(st: State, seed: Option<Db>, name: string): (r: State)
    ensures name in r.db.collections && name in r.db.nextId
  {
    var s := SeedStep(st, seed);
    State(WithCollection(s.db, name), s.saved)
  }

  /** An auto id starts one above the largest numeric id and is never already taken. */
  lemma FreshCounterIsFree(st: State, seed: Option<Db>, name: string)
    requires name !in SeedStep(st, seed).db.nextId
    ensures var p := Prepare(st, seed, name);
      && p.db.nextId[name] == MaxNumericId(p.db.collections[name]) + 1
      && FindIndex(p.db.collections[name], IntToString(p.db.nextId[name])) == -1
  {
    var p := Prepare(st, seed, name);
    AutoIdIsFresh(p.db.collections[name], p.db.nextId[name]);
  }

  /** Once a collection and its counter exist, preparing it again changes nothing. */
  lemma PrepareIdle(st: State, seed: Option<Db>, name: string)
    requires name in st.db.collections && name in st.db.nextId
    ensures Prepare(st, seed, name) == st
  {
    assert st.db.collections != map[];
  }

  lemma PrepareConsistent(st: State, seed: Option<Db>, name: string)
    requires Consistent(st, seed)
    ensures Consistent(Prepare(st, seed, name), seed)
  {
  }

  // ---------------------------------------------------------------------------
  // The operations on a collection
  // ---------------------------------------------------------------------------

  /** `get` on a collection: one record by id, or the list query. */
  function ReadOp(st: State, seed: Option<Db>, c: string, id: Option<string>,
                  search: map<string, Value>): Outcome
  {
    var p := Prepare(st, seed, c);
    var docs := p.db.collections[c];
    match id
    case Some(key) =>
      var k := FindIndex(docs, key);
      if k < 0 then Outcome(p, Err(NotFound)) else Outcome(p, Ok(One(docs[k])))
    case None => Outcome(p, Ok(Many(RunQuery(docs, search))))
  }

  /** The record `post` would insert: the body with its id and both timestamps. */
  function NewItem(body: Doc, id: Value, now: string): Doc
  {
    body["id" := id]
        ["createdAt" := Coalesce(Field(body, "createdAt"), Str(now))]
        ["updatedAt" := Coalesce(Field(body, "updatedAt"), Str(now))]
  }

  /** The id `post` uses: the body's, or the collection's counter. */
  function PostId(p: State, c: string, body: Doc): Value
    requires c in p.db.nextId
  {
    if !IsNullish(Field(body, "id")) then body["id"] else Num(p.db.nextId[c])
  }

  /** `post` on a collection. */
  function CreateOp(st: State, seed: Option<Db>, c: string, body: Doc, now: string): Outcome
  {
    var p := Prepare(st, seed, c);
    var hasId := !IsNullish(Field(body, "id"));
    var id := PostId(p, c, body);
    var ids := if hasId then p.db.nextId else p.db.nextId[c := p.db.nextId[c] + 1];
    var item := NewItem(body, id, now);
    var docs := p.db.collections[c];
    if FindIndex(docs, Stringify(id)) >= 0 then
      Outcome(State(Db(p.db.collections, ids), p.saved), Err(Conflict))
    else
      var db' := Db(p.db.collections[c := docs + [item]], ids);
      Outcome(State(db', Some(db')), Ok(One(item)))
  }

  /** `put` on a collection: replace at the same index, or append. */
  function ReplaceOp(st: State, seed: Option<Db>, c: string, id: string, body: Doc, now: string): Outcome
  {
    var p := Prepare(st, seed, c);
    var docs := p.db.collections[c];
    var k := FindIndex(docs, id);
    var next := body["id" := Str(id)]["updatedAt" := Str(now)];
    var created :=
      if k < 0 then Coalesce(Field(body, "createdAt"), Str(now))
      else Coalesce(Field(docs[k], "createdAt"), Coalesce(Field(body, "createdAt"), Str(now)));
    var item := next["createdAt" := created];
    var docs' := if k < 0 then docs + [item] else docs[k := item];
    var db' := Db(p.db.collections[c := docs'], p.db.nextId);
    Outcome(State(db', Some(db')), Ok(One(item)))
  }

  /** The record `patch` stores: the body over the stored record, with the path id and a new `updatedAt`. */
  function Merged(stored: Doc, body: Doc, id: string, now: string): Doc
  {
    (stored + body)["id" := Str(id)]["updatedAt" := Str(now)]
  }

  /** A merged record carries the id it was addressed by. */
  lemma MergedId(stored: Doc, body: Doc, id: string, now: string)
    ensures IdKey(Merged(stored, body, id, now)) == id
  {
  }

  /** `patch` on a collection. */
  function MergeOp(st: State, seed: Option<Db>, c: string, id: string, body: Doc, now: string): Outcome
  {
    var p := Prepare(st, seed, c);
    var docs := p.db.collections[c];
    var k := FindIndex(docs, id);
    if k < 0 then Outcome(p, Err(NotFound))
    else
      var item := Merged(docs[k], body, id, now);
      var db' := Db(p.db.collections[c := docs[k := item]], p.db.nextId);
      Outcome(State(db', Some(db')), Ok(One(item)))
  }

  /** `del` on a collection. */
  function RemoveOp(st: State, seed: Option<Db>, c: string, id: string): Outcome
  {
    var p := Prepare(st, seed, c);
    var docs := p.db.collections[c];
    var docs' := RemoveKey(docs, id);
    var db' := Db(p.db.collections[c := docs'], p.db.nextId);
    if |docs'| == |docs| then Outcome(State(db', p.saved), Err(NotFound))
    else Outcome(State(db', Some(db')), Ok(One(map[])))
  }

  /** A body carrying its own id can be posted once: posting it again is a Conflict. */
  lemma CreateTwiceConflicts(st: State, seed: Option<Db>, c: string, body: Doc, now: string)
    requires !IsNullish(Field(body, "id"))
    requires CreateOp(st, seed, c, body, now).result.Ok?
    ensures var o := CreateOp(st, seed, c, body, now);
      CreateOp(o.state, seed, c, body, now).result == Err(Conflict)
  {
    var p := Prepare(st, seed, c);
    var pid := PostId(p, c, body);
    var o := CreateOp(st, seed, c, body, now);
    var item := NewItem(body, pid, now);
    PostThenGet(st, seed, c, body, now);
    assert IdKey(item) == Stringify(pid);
    FindAppended(p.db.collections[c], item, Stringify(pid));
    assert c in o.state.db.nextId;
    PrepareIdle(o.state, seed, c);
  }

  /** On a prepared collection, a patch of a record found at `k` rewrites that record only. */
  lemma MergeOpAt(st: State, seed: Option<Db>, c: string, id: string, body: Doc, now: string, k: int)
    requires c in st.db.collections && c in st.db.nextId
    requires 0 <= k && FindIndex(st.db.collections[c], id) == k
    ensures var docs := st.db.collections[c];
      var o := MergeOp(st, seed, c, id, body, now);
      && o.result == Ok(One(Merged(docs[k], body, id, now)))
      && o.state.db == Db(st.db.collections[c := docs[k := Merged(docs[k], body, id, now)]], st.db.nextId)
  {
    PrepareIdle(st, seed, c);
  }

  /** On a prepared collection, a delete only filters that collection. */
  lemma RemoveOpIdle(st: State, seed: Option<Db>, c: string, id: string)
    requires c in st.db.collections && c in st.db.nextId
    ensures RemoveOp(st, seed, c, id).state.db == Db(st.db.collections[c := RemoveKey(st.db.collections[c], id)], st.db.nextId)
  {
    PrepareIdle(st, seed, c);
  }

  // ---------------------------------------------------------------------------
  // The operations on paths
  // ---------------------------------------------------------------------------

  function GetOp(st: State, seed: Option<Db>, path: string, search: map<string, Value>): Outcome
  {
    var route := ParseUrl(path);
    if route.collection == "" then Outcome(SeedStep(st, seed), Err(InvalidPath))
    else ReadOp(st, seed, route.collection, route.id, search)
  }

  function PostOp(st: State, seed: Option<Db>, path: string, body: Doc, now: string): Outcome
  {
    var route := ParseUrl(path);
    if route.collection == "" then Outcome(SeedStep(st, seed), Err(InvalidPath))
    else CreateOp(st, seed, route.collection, body, now)
  }

  function PutOp(st: State, seed: Option<Db>, path: string, body: Doc, now: string): Outcome
  {
    var route := ParseUrl(path);
    if route.collection == "" || route.id.None? then Outcome(SeedStep(st, seed), Err(InvalidPath))
    else ReplaceOp(st, seed, route.collection, route.id.value, body, now)
  }

  function PatchOp(st: State, seed: Option<Db>, path: string, body: Doc, now: string): Outcome
  {
    var route := ParseUrl(path);
    if route.collection == "" || route.id.None? then Outcome(SeedStep(st, seed), Err(InvalidPath))
    else MergeOp(st, seed, route.collection, route.id.value, body, now)
  }

  function DeleteOp(st: State, seed: Option<Db>, path: string): Outcome
  {
    var route := ParseUrl(path);
    if route.collection == "" || route.id.None? then Outcome(SeedStep(st, seed), Err(InvalidPath))
    else RemoveOp(st, seed, route.collection, route.id.value)
  }

  // ---------------------------------------------------------------------------
  // Unique ids
  // ---------------------------------------------------------------------------

  lemma AppendUnique(docs: seq<Doc>, x: Doc)
    requires UniqueIds(docs) && FindIndex(docs, IdKey(x)) == -1
    ensures UniqueIds(docs + [x])
  {
  }

  lemma UpdateUnique(docs: seq<Doc>, k: nat, x: Doc)
    requires UniqueIds(docs) && k < |docs| && IdKey(x) == IdKey(docs[k])
    ensures UniqueIds(docs[k := x])
  {
  }

  lemma {:induction false} RemoveUnique(docs: seq<Doc>, key: string)
    requires UniqueIds(docs)
    ensures UniqueIds(RemoveKey(docs, key))
  {
    if docs != [] {
      RemoveUnique(docs[1..], key);
      var rest := RemoveKey(docs[1..], key);
      forall d | d in rest ensures IdKey(d) != IdKey(docs[0]) {
        var j :| 0 <= j < |docs[1..]| && docs[1..][j] == d;
        assert docs[j + 1] == d;
      }
    }
  }

  lemma FindAppended(docs: seq<Doc>, x: Doc, key: string)
    requires FindIndex(docs, key) == -1 && IdKey(x) == key
    ensures FindIndex(docs + [x], key) == |docs|
  {
    assert (docs + [x])[|docs|] == x;
  }

  lemma CreateKeepsIdsUnique(st: State, seed: Option<Db>, c: string, body: Doc, now: string)
    requires Consistent(st, seed)
    ensures Consistent(CreateOp(st, seed, c, body, now).state, seed)
  {
    var p := Prepare(st, seed, c);
    var docs := p.db.collections[c];
    var pid := PostId(p, c, body);
    if FindIndex(docs, Stringify(pid)) < 0 {
      var item := NewItem(body, pid, now);
      assert IdKey(item) == Stringify(pid);
      AppendUnique(docs, item);
    }
  }

  lemma ReplaceKeepsIdsUnique(st: State, seed: Option<Db>, c: string, id: string, body: Doc, now: string)
    requires Consistent(st, seed)
    ensures Consistent(ReplaceOp(st, seed, c, id, body, now).state, seed)
  {
    var p := Prepare(st, seed, c);
    var docs := p.db.collections[c];
    var k := FindIndex(docs, id);
    var r := ReplaceOp(st, seed, c, id, body, now).result.value.doc;
    assert IdKey(r) == id;
    if k < 0 {
      AppendUnique(docs, r);
    } else {
      UpdateUnique(docs, k, r);
    }
  }

  lemma MergeKeepsIdsUnique(st: State, seed: Option<Db>, c: string, id: string, body: Doc, now: string)
    requires Consistent(st, seed)
    ensures Consistent(MergeOp(st, seed, c, id, body, now).state, seed)
  {
    var p := Prepare(st, seed, c);
    var docs := p.db.collections[c];
    var k := FindIndex(docs, id);
    if k >= 0 {
      UpdateUnique(docs, k, Merged(docs[k], body, id, now));
    }
  }

  lemma RemoveKeepsIdsUnique(st: State, seed: Option<Db>, c: string, id: string)
    requires Consistent(st, seed)
    ensures Consistent(RemoveOp(st, seed, c, id).state, seed)
  {
    RemoveUnique(Prepare(st, seed, c).db.collections[c], id);
  }

  // ---------------------------------------------------------------------------
  // What the operations promise
  // ---------------------------------------------------------------------------

  /** `post` with a taken id: a Conflict that adds nothing (the counter may already have moved). */
  lemma CreateConflict(st: State, seed: Option<Db>, c: string, body: Doc, now: string)
    requires var p := Prepare(st, seed, c);
      FindIndex(p.db.collections[c], Stringify(PostId(p, c, body))) >= 0
    ensures var o := CreateOp(st, seed, c, body, now);
      && o.result == Err(Conflict)
      && o.state.db.collections == Prepare(st, seed, c).db.collections
      && o.state.saved == Prepare(st, seed, c).saved
  {
  }

  /**
    * `post` with a free id appends the new record at the end of its
    * collection, touches no other collection, saves, and a `get` of the id
    * afterwards returns the record.
    */
  lemma PostThenGet(st: State, seed: Option<Db>, c: string, body: Doc, now: string)
    requires var p := Prepare(st, seed, c);
      FindIndex(p.db.collections[c], Stringify(PostId(p, c, body))) < 0
    ensures var p := Prepare(st, seed, c);
      var id := PostId(p, c, body);
      var item := NewItem(body, id, now);
      var o := CreateOp(st, seed, c, body, now);
      && o.result == Ok(One(item))
      && o.state.db.collections[c] == p.db.collections[c] + [item]
      && (forall c' :: c' in p.db.collections && c' != c ==>
            c' in o.state.db.collections && o.state.db.collections[c'] == p.db.collections[c'])
      && o.state.saved == Some(o.state.db)
      && ReadOp(o.state, seed, c, Some(Stringify(id)), map[]).result == Ok(One(item))
  {
    var p := Prepare(st, seed, c);
    var id := PostId(p, c, body);
    var item := NewItem(body, id, now);
    var docs := p.db.collections[c];
    assert IdKey(item) == Stringify(id);
    FindAppended(docs, item, Stringify(id));
  }

  /** `post` without an id takes the counter as the id and moves the counter up by one. */
  lemma PostAutoId(st: State, seed: Option<Db>, c: string, body: Doc, now: string)
    requires IsNullish(Field(body, "id"))
    ensures var p := Prepare(st, seed, c);
      var o := CreateOp(st, seed, c, body, now);
      && PostId(p, c, body) == Num(p.db.nextId[c])
      && o.state.db.nextId == p.db.nextId[c := p.db.nextId[c] + 1]
  {
  }

  /** A collection without a counter never rejects a `post` without an id. */
  lemma FirstAutoIdNeverConflicts(st: State, seed: Option<Db>, c: string, body: Doc, now: string)
    requires IsNullish(Field(body, "id"))
    requires c !in SeedStep(st, seed).db.nextId
    ensures CreateOp(st, seed, c, body, now).result.Ok?
  {
    FreshCounterIsFree(st, seed, c);
  }

  /**
    * `put` stores the record under the path id with a new `updatedAt`; a
    * replaced record keeps its stored `createdAt` and its place, the others
    * are untouched; an absent one is appended.
    */
  lemma PutSpec(st: State, seed: Option<Db>, c: string, id: string, body: Doc, now: string)
    ensures var p := Prepare(st, seed, c);
      var docs := p.db.collections[c];
      var k := FindIndex(docs, id);
      var o := ReplaceOp(st, seed, c, id, body, now);
      && o.result.Ok? && o.result.value.One?
      && var item := o.result.value.doc;
      && item["id"] == Str(id) && item["updatedAt"] == Str(now)
      && (forall f :: f in body && f !in {"id", "updatedAt", "createdAt"} ==> f in item && item[f] == body[f])
      && item.Keys == body.Keys + {"id", "updatedAt", "createdAt"}
      && o.state.saved == Some(o.state.db)
      && (k < 0 ==> o.state.db.collections[c] == docs + [item])
      && (k >= 0 ==>
            && |o.state.db.collections[c]| == |docs|
            && o.state.db.collections[c][k] == item
            && (forall j :: 0 <= j < |docs| && j != k ==> o.state.db.collections[c][j] == docs[j])
            && (!IsNullish(Field(docs[k], "createdAt")) ==> item["createdAt"] == docs[k]["createdAt"]))
  {
    var p := Prepare(st, seed, c);
    var docs := p.db.collections[c];
    var k := FindIndex(docs, id);
    var created :=
      if k < 0 then Coalesce(Field(body, "createdAt"), Str(now))
      else Coalesce(Field(docs[k], "createdAt"), Coalesce(Field(body, "createdAt"), Str(now)));
    var item := body["id" := Str(id)]["updatedAt" := Str(now)]["createdAt" := created];
    StampedFields(body, id, now, created);
    assert ReplaceOp(st, seed, c, id, body, now).result == Ok(One(item));
  }

  /** The record `put` stores: the body with the path id, the time and a creation time. */
  lemma StampedFields(body: Doc, id: string, now: string, created: Value)
    ensures var item := body["id" := Str(id)]["updatedAt" := Str(now)]["createdAt" := created];
      && item["id"] == Str(id) && item["updatedAt"] == Str(now) && item["createdAt"] == created
      && (forall f :: f in body && f !in {"id", "updatedAt", "createdAt"} ==> f in item && item[f] == body[f])
      && item.Keys == body.Keys + {"id", "updatedAt", "createdAt"}
  {
  }

  /**
    * `patch` of an absent id is NotFound and adds nothing; otherwise the body
    * is merged shallowly into the stored record in place: body fields win,
    * untouched fields keep their values, `id` becomes the path id and
    * `updatedAt` the current time.
    */
  lemma PatchSpec(st: State, seed: Option<Db>, c: string, id: string, body: Doc, now: string)
    ensures var p := Prepare(st, seed, c);
      var docs := p.db.collections[c];
      var k := FindIndex(docs, id);
      var o := MergeOp(st, seed, c, id, body, now);
      && (k < 0 <==> o.result.Err?)
      && (k < 0 ==> o.result.error == NotFound && o.state == p)
      && (k >= 0 ==>
            && o.result.Ok? && o.result.value.One?
            && var item := o.result.value.doc;
            && o.state.db.collections[c] == docs[k := item]
            && item.Keys == docs[k].Keys + body.Keys + {"id", "updatedAt"}
            && item["id"] == Str(id) && item["updatedAt"] == Str(now)
            && (forall f :: f in body && f !in {"id", "updatedAt"} ==> item[f] == body[f])
            && (forall f :: f in docs[k] && f !in body && f !in {"id", "updatedAt"} ==> item[f] == docs[k][f])
            && o.state.saved == Some(o.state.db))
  {
    var p := Prepare(st, seed, c);
    var docs := p.db.collections[c];
    var k := FindIndex(docs, id);
    if k >= 0 {
      MergedFields(docs[k], body, id, now);
    }
  }

  /** The record `patch` stores: body fields over stored fields, then the id and the time. */
  lemma MergedFields(stored: Doc, body: Doc, id: string, now: string)
    ensures var item := Merged(stored, body, id, now);
      && item.Keys == stored.Keys + body.Keys + {"id", "updatedAt"}
      && item["id"] == Str(id) && item["updatedAt"] == Str(now)
      && (forall f :: f in body && f !in {"id", "updatedAt"} ==> item[f] == body[f])
      && (forall f :: f in stored && f !in body && f !in {"id", "updatedAt"} ==> item[f] == stored[f])
  {
  }

  /**
    * `del` removes every record with the id, keeping the others in order;
    * it is NotFound exactly when no record had the id, and then nothing is
    * saved.
    */
  lemma DeleteSpec(st: State, seed: Option<Db>, c: string, id: string)
    ensures var p := Prepare(st, seed, c);
      var docs := p.db.collections[c];
      var o := RemoveOp(st, seed, c, id);
      var after := o.state.db.collections[c];
      && (o.result.Err? <==> FindIndex(docs, id) == -1)
      && (o.result.Err? ==> o.result.error == NotFound && after == docs && o.state.saved == p.saved)
      && (o.result.Ok? ==> o.result.value == One(map[]) && o.state.saved == Some(o.state.db))
      && FindIndex(after, id) == -1
      && (forall d :: d in docs && IdKey(d) != id ==> d in after)
      && (forall d :: d in after ==> d in docs)
  {
    var p := Prepare(st, seed, c);
    var docs := p.db.collections[c];
    if FindIndex(docs, id) == -1 {
      RemoveNothing(docs, id);
    }
    RemovedKeyAbsent(docs, id);
  }

  lemma RemovedKeyAbsent(docs: seq<Doc>, key: string)
    ensures FindIndex(RemoveKey(docs, key), key) == -1
  {
    var r := RemoveKey(docs, key);
    forall i | 0 <= i < |r| ensures IdKey(r[i]) != key {
      assert r[i] in r;
    }
  }

  lemma {:induction false} RemoveNothing(docs: seq<Doc>, key: string)
    requires FindIndex(docs, key) == -1
    ensures RemoveKey(docs, key) == docs
  {
    if docs != [] {
      RemoveNothing(docs[1..], key);
      assert docs == [docs[0]] + docs[1..];
    }
  }

  // ---------------------------------------------------------------------------
  // The adapter
  // ---------------------------------------------------------------------------

  /**
    * One adapter instance: its database, what `localStorage` holds, and the
    * seed it may load. Every method keeps ids unique.
    */
  class LocalStore {
    var db: Db
    var saved: Option<Db>
    const seed: Option<Db>

    function Snapshot(): State
      reads this
    {
      State(db, saved)
    }

    predicate Valid()
      reads this
    {
      Consistent(Snapshot(), seed)
    }

    /** `createLocalStorageAdapter`: the database starts as what `localStorage` holds. */
    constructor (stored: Option<Db>, seed: Option<Db>)
      ensures db == Load(stored) && saved == stored && this.seed == seed
      ensures (stored.Some? ==> AllUnique(stored.value)) && (seed.Some? ==> AllUnique(seed.value)) ==> Valid()
    {
      db := Load(stored);
      saved := stored;
      this.seed := seed;
    }

    method EnsureSeed()
      modifies this
      ensures Snapshot() == SeedStep(old(Snapshot()), seed)
      ensures old(Valid()) ==> Valid()
    {
      if seed.Some? && db.collections == map[] {
        db := seed.value;
        saved := Some(db);
      }
    }

    method EnsureCollection(name: string)
      modifies this
      ensures db == WithCollection(old(db), name) && saved == old(saved)
      ensures old(Valid()) ==> Valid()
    {
      if name !in db.collections {
        db := db.(collections := db.collections[name := []]);
      }
      if name !in db.nextId {
        db := db.(nextId := db.nextId[name := MaxNumericId(db.collections[name]) + 1]);
      }
    }

    /** `nextId`: hands out the counter and moves it up by one. */
    method NextId(name: string) returns (id: int)
      modifies this
      ensures var d := WithCollection(old(db), name);
        id == d.nextId[name] && db == d.(nextId := d.nextId[name := id + 1]) && saved == old(saved)
    {
      EnsureCollection(name);
      id := db.nextId[name];
      db := db.(nextId := db.nextId[name := id + 1]);
    }

    method Read(c: string, id: Option<string>, search: map<string, Value>)
      returns (r: Result<Response, StoreError>)
      modifies this
      ensures Outcome(Snapshot(), r) == ReadOp(old(Snapshot()), seed, c, id, search)
      ensures old(Valid()) ==> Valid()
    {
      EnsureSeed();
      EnsureCollection(c);
      var docs := db.collections[c];
      if id.Some? {
        var k := FindIndex(docs, id.value);
        if k < 0 {
          return Err(NotFound);
        }
        return Ok(One(docs[k]));
      }
      r := Ok(Many(RunQuery(docs, search)));
    }

    method Create(c: string, body: Doc, now: string)
      returns (r: Result<Response, StoreError>)
      modifies this
      ensures Outcome(Snapshot(), r) == CreateOp(old(Snapshot()), seed, c, body, now)
      ensures old(Valid()) ==> Valid()
    {
      ghost var st := Snapshot();
      EnsureSeed();
      EnsureCollection(c);
      ghost var p := Snapshot();
      assert p == Prepare(st, seed, c);
      var id: Value;
      if !IsNullish(Field(body, "id")) {
        id := body["id"];
      } else {
        var n := NextId(c);
        id := Num(n);
      }
      assert id == PostId(p, c, body);
      assert db.collections == p.db.collections && saved == p.saved;
      var item := NewItem(body, id, now);
      if FindIndex(db.collections[c], Stringify(id)) >= 0 {
        r := Err(Conflict);
      } else {
        db := db.(collections := db.collections[c := db.collections[c] + [item]]);
        saved := Some(db);
        r := Ok(One(item));
      }
      if old(Valid()) {
        CreateKeepsIdsUnique(st, seed, c, body, now);
      }
    }

    method Replace(c: string, id: string, body: Doc, now: string)
      returns (r: Result<Response, StoreError>)
      modifies this
      ensures Outcome(Snapshot(), r) == ReplaceOp(old(Snapshot()), seed, c, id, body, now)
      ensures old(Valid()) ==> Valid()
    {
      ghost var st := Snapshot();
      EnsureSeed();
      EnsureCollection(c);
      var docs := db.collections[c];
      var k := FindIndex(docs, id);
      var next := body["id" := Str(id)]["updatedAt" := Str(now)];
      if k == -1 {
        next := next["createdAt" := Coalesce(Field(body, "createdAt"), Str(now))];
        docs := docs + [next];
      } else {
        next := next["createdAt" := Coalesce(Field(docs[k], "createdAt"), Coalesce(Field(body, "createdAt"), Str(now)))];
        docs := docs[k := next];
      }
      db := db.(collections := db.collections[c := docs]);
      saved := Some(db);
      r := Ok(One(next));
      if old(Valid()) {
        ReplaceKeepsIdsUnique(st, seed, c, id, body, now);
      }
    }

    method Merge(c: string, id: string, body: Doc, now: string)
      returns (r: Result<Response, StoreError>)
      modifies this
      ensures Outcome(Snapshot(), r) == MergeOp(old(Snapshot()), seed, c, id, body, now)
      ensures old(Valid()) ==> Valid()
    {
      ghost var st := Snapshot();
      EnsureSeed();
      EnsureCollection(c);
      var docs := db.collections[c];
      var k := FindIndex(docs, id);
      if k == -1 {
        return Err(NotFound);
      }
      var merged := (docs[k] + body)["id" := Str(id)]["updatedAt" := Str(now)];
      db := db.(collections := db.collections[c := docs[k := merged]]);
      saved := Some(db);
      r := Ok(One(merged));
      if old(Valid()) {
        MergeKeepsIdsUnique(st, seed, c, id, body, now);
      }
    }

    method Remove(c: string, id: string)
      returns (r: Result<Response, StoreError>)
      modifies this
      ensures Outcome(Snapshot(), r) == RemoveOp(old(Snapshot()), seed, c, id)
      ensures old(Valid()) ==> Valid()
    {
      ghost var st := Snapshot();
      EnsureSeed();
      EnsureCollection(c);
      var before := |db.collections[c]|;
      db := db.(collections := db.collections[c := RemoveKey(db.collections[c], id)]);
      if |db.collections[c]| == before {
        r := Err(NotFound);
      } else {
        saved := Some(db);
        r := Ok(One(map[]));
      }
      if old(Valid()) {
        RemoveKeepsIdsUnique(st, seed, c, id);
      }
    }

    method Get(path: string, search: map<string, Value>) returns (r: Result<Response, StoreError>)
      modifies this
      ensures Outcome(Snapshot(), r) == GetOp(old(Snapshot()), seed, path, search)
      ensures old(Valid()) ==> Valid()
    {
      var route := ParseUrl(path);
      if route.collection == "" {
        EnsureSeed();
        return Err(InvalidPath);
      }
      r := Read(route.collection, route.id, search);
    }

    method Post(path: string, body: Doc, now: string) returns (r: Result<Response, StoreError>)
      modifies this
      ensures Outcome(Snapshot(), r) == PostOp(old(Snapshot()), seed, path, body, now)
      ensures old(Valid()) ==> Valid()
    {
      var route := ParseUrl(path);
      if route.collection == "" {
        EnsureSeed();
        return Err(InvalidPath);
      }
      r := Create(route.collection, body, now);
    }

    method Put(path: string, body: Doc, now: string) returns (r: Result<Response, StoreError>)
      modifies this
      ensures Outcome(Snapshot(), r) == PutOp(old(Snapshot()), seed, path, body, now)
      ensures old(Valid()) ==> Valid()
    {
      var route := ParseUrl(path);
      if route.collection == "" || route.id.None? {
        EnsureSeed();
        return Err(InvalidPath);
      }
      r := Replace(route.collection, route.id.value, body, now);
    }

    method Patch(path: string, body: Doc, now: string) returns (r: Result<Response, StoreError>)
      modifies this
      ensures Outcome(Snapshot(), r) == PatchOp(old(Snapshot()), seed, path, body, now)
      ensures old(Valid()) ==> Valid()
    {
      var route := ParseUrl(path);
      if route.collection == "" || route.id.None? {
        EnsureSeed();
        return Err(InvalidPath);
      }
      r := Merge(route.collection, route.id.value, body, now);
    }

    method Delete(path: string) returns (r: Result<Response, StoreError>)
      modifies this
      ensures Outcome(Snapshot(), r) == DeleteOp(old(Snapshot()), seed, path)
      ensures old(Valid()) ==> Valid()
    {
      var route := ParseUrl(path);
      if route.collection == "" || route.id.None? {
        EnsureSeed();
        return Err(InvalidPath);
      }
      r := Remove(route.collection, route.id.value);
    }
  }
}
