/** The two HTTP resources: the collection `/plants` (list, create) and the
    single record `/plants/<id>` (read, update, delete). Each handler takes the
    store and the parsed request and returns the status, the body and the
    store the next request sees. */
module Resources {
  import opened Json
  import opened Wrappers
  import opened Plants
  import opened Errors

  const MissingFieldMessage := "Missing required field"
  const PlantNotFoundMessage := "Plant not found"

  /** The create request carries every required field. */
  predicate HasRequired(data: Body)
  {
    forall f :: f in RequiredFields ==> f in data
  }

  /** Field `i` is the first of `fields` the body lacks. */
  predicate IsFirstMissing(fields: seq<string>, i: int, data: Body)
  {
    0 <= i < |fields| && fields[i] !in data && forall j :: 0 <= j < i ==> fields[j] in data
  }

  /** The first of `fields` the body lacks, checked in order as `all(...)` does. */
  function FirstMissing(fields: seq<string>, data: Body): (r: Option<string>)
    ensures r.None? <==> forall i :: 0 <= i < |fields| ==> fields[i] in data
    ensures r.Some? ==> exists i :: IsFirstMissing(fields, i, data) && fields[i] == r.value
  {
    if |fields| == 0 then None
    else if fields[0] !in data then
      assert IsFirstMissing(fields, 0, data);
      Some(fields[0])
    else
      var r := FirstMissing(fields[1..], data);
      assert r.Some? ==> exists i :: IsFirstMissing(fields, i, data) && fields[i] == r.value by {
        if r.Some? {
          var i :| IsFirstMissing(fields[1..], i, data) && fields[1..][i] == r.value;
          forall j | 0 <= j < i + 1
            ensures fields[j] in data
          {
            if j > 0 {
              assert fields[j] == fields[1..][j - 1];
            }
          }
          assert IsFirstMissing(fields, i + 1, data) && fields[i + 1] == r.value;
        }
      }
      r
  }

  /** `validate_plant`: a BadRequest with the fixed message exactly when some
      required field is absent; otherwise the body, unchanged. */
  function ValidatePlant(data: Body): (r: Result<Body, Exception>)
    ensures r.Success? <==> HasRequired(data)
    ensures r.Success? ==> r.value == data
    ensures r.Failure? ==> r.error == BadRequest(MissingFieldMessage)
  {
    match FirstMissing(RequiredFields, data)
    case Some(_) => Failure(BadRequest(MissingFieldMessage))
    case None => Success(data)
  }

  /** `Plant(**data)` for a validated body, under the id the store hands out. */
  function NewPlant(id: int, data: Body): (p: Plant)
    requires HasRequired(data)
    ensures p.id == id
    ensures forall f :: f in RequiredFields ==> Field(p, f) == data[f]
  {
    Plant(id, data[NameKey], data[ImageKey], data[PriceKey], data[InStockKey])
  }

  /** `setattr(plant, key, value)` for every pair of the body. */
  function ApplyPatch(p: Plant, data: Body): (r: Plant)
    ensures r.id == p.id
    ensures forall f :: f in RequiredFields ==>
      Field(r, f) == (if f in data then data[f] else Field(p, f))
  {
    Plant(p.id,
          if NameKey in data then data[NameKey] else p.name,
          if ImageKey in data then data[ImageKey] else p.image,
          if PriceKey in data then data[PriceKey] else p.price,
          if InStockKey in data then data[InStockKey] else p.isInStock)
  }

  /** The end of a writing handler: the commit either makes the pending store
      the new one and returns the response, or raises the store's error. */
  function AfterCommit(commit: Commit, pending: Store, status: int, body: Value): (o: Outcome)
    ensures commit.Commits? ==> o == Returned(status, body, pending)
    ensures commit.Fails? ==> o == Raised(Other(commit.message), pending)
  {
    match commit
    case Commits => Returned(status, body, pending)
    case Fails(message) => Raised(Other(message), pending)
  }

  // ---------------------------------------------------------------------
  // `/plants`

  /** One projected record per row, in the rows' order. */
  function Project(rows: seq<Plant>): (items: seq<Value>)
    ensures |items| == |rows|
    ensures forall i :: 0 <= i < |rows| ==> items[i] == Obj(ToDict(rows[i]))
  {
    seq(|rows|, i requires 0 <= i < |rows| => Obj(ToDict(rows[i])))
  }

  /** The body of `Plants.get`. */
  function ListOutcome(store: Store): Outcome
  {
    var rows := Rows(store);
    if |rows| == 0 then Returned(404, MessageBody(PlantNotFoundMessage), store)
    else Returned(200, Arr(Project(rows)), store)
  }

  /** `items` lists the table: one projection per row and nothing else, in
      ascending id order. */
  predicate ListsTable(items: seq<Value>, store: Store)
  {
    && |items| == |store|
    && (forall k :: k in store ==> Obj(ToDict(store[k])) in items)
    && (forall i :: 0 <= i < |items| ==>
          exists k :: k in store && items[i] == Obj(ToDict(store[k])))
    && (forall i, j :: 0 <= i < j < |items| ==>
          items[i].Obj? && items[j].Obj? && IdKey in items[i].fields && IdKey in items[j].fields &&
          items[i].fields[IdKey].Int? && items[j].fields[IdKey].Int? &&
          items[i].fields[IdKey].i < items[j].fields[IdKey].i)
  }

  /** The projection of the table scan lists the table. */
  lemma ProjectRowsListsTable(store: Store)
    ensures ListsTable(Project(Rows(store)), store)
  {
    var rows := Rows(store);
    var items := Project(rows);
    forall k | k in store
      ensures Obj(ToDict(store[k])) in items
    {
      var i :| 0 <= i < |rows| && rows[i] == store[k];
      assert items[i] == Obj(ToDict(store[k]));
    }
    forall i | 0 <= i < |items|
      ensures exists k :: k in store && items[i] == Obj(ToDict(store[k]))
    {
      assert items[i] == Obj(ToDict(store[rows[i].id]));
    }
  }

  /** `GET /plants`: 404 with the not-found message on an empty table,
      otherwise 200 with one projected record per row, in ascending id order.
      The store is never changed. */
  function ListPlants(store: Store): (r: Reply)
    ensures r.store == store
    ensures r.status == 404 <==> |store| == 0
    ensures r.status == 404 ==> r.body == MessageBody(PlantNotFoundMessage)
    ensures r.status != 404 ==> r.status == 200 && r.body.Arr? && ListsTable(r.body.items, store)
  {
    ProjectRowsListsTable(store);
    HandleErrors(store, ListOutcome(store))
  }

  /** The body of `Plants.post`; `newId` is the id the store assigns. */
  function CreateOutcome(store: Store, data: Body, newId: int, commit: Commit): Outcome
    requires newId !in store
  {
    match ValidatePlant(data)
    case Failure(e) => Raised(e, store)
    case Success(valid) =>
      var row := NewPlant(newId, valid);
      AfterCommit(commit, Put(store, row), 201, Obj(ToDict(row)))
  }

  /** `POST /plants`. A missing required field gives 400 and no change; a
      failed commit gives 422 and no change; otherwise the table gains exactly
      one row, under the fresh id, holding the sent fields, every other row
      stays as it was, and the reply is 201 with the new row projected. */
  function CreatePlant(store: Store, data: Body, newId: int, commit: Commit): (r: Reply)
    requires newId !in store
    ensures r.status == 400 <==> !HasRequired(data)
    ensures !HasRequired(data) ==> r.body == ErrorBody(MissingFieldMessage) && r.store == store
    ensures HasRequired(data) && commit.Fails? ==>
      r == Reply(422, MessageBody(commit.message), store)
    ensures HasRequired(data) && commit.Commits? ==>
      && r.status == 201
      && r.store.Keys == store.Keys + {newId}
      && (forall k :: k in store ==> r.store[k] == store[k])
      && (forall f :: f in RequiredFields ==> Field(r.store[newId], f) == data[f])
      && r.body == Obj(ToDict(r.store[newId]))
  {
    HandleErrors(store, CreateOutcome(store, data, newId, commit))
  }

  // ---------------------------------------------------------------------
  // `/plants/<id>`

  /** The body of `PlantByID.get`. */
  function ShowOutcome(store: Store, id: int): Outcome
  {
    match GetPlantById(store, id)
    case None => Returned(404, MessageBody(PlantNotFoundMessage), store)
    case Some(plant) => Returned(200, Obj(ToDict(plant)), store)
  }

  /** `GET /plants/<id>`: 404 with the not-found message when no row has the
      id, otherwise 200 with that row projected; the store is never changed. */
  function ShowPlant(store: Store, id: int): (r: Reply)
    ensures r.store == store
    ensures r.status == 404 <==> id !in store
    ensures id !in store ==> r.body == MessageBody(PlantNotFoundMessage)
    ensures id in store ==> r.status == 200 && r.body == Obj(ToDict(store[id]))
  {
    HandleErrors(store, ShowOutcome(store, id))
  }

  /** The body of `PlantByID.patch`. */
  function UpdateOutcome(store: Store, id: int, data: Body, commit: Commit): Outcome
  {
    match GetPlantById(store, id)
    case None => Returned(404, MessageBody(PlantNotFoundMessage), store)
    case Some(plant) =>
      var updated := ApplyPatch(plant, data);
      AfterCommit(commit, Put(store, updated), 200, Obj(ToDict(updated)))
  }

  /** `PATCH /plants/<id>`. An absent id gives 404 and no change; a failed
      commit gives 422 and no change; otherwise, for a body without an `id`
      key, every field the body names is overwritten, every other field and
      every other row keeps its value, and the reply is 200 with the updated
      row projected. A body with an `id` key renumbers the row, which this
      contract does not describe. */
  function UpdatePlant(store: Store, id: int, data: Body, commit: Commit): (r: Reply)
    ensures id !in store ==> r == Reply(404, MessageBody(PlantNotFoundMessage), store)
    ensures id in store && commit.Fails? ==>
      r == Reply(422, MessageBody(commit.message), store)
    ensures id in store && commit.Commits? && IdKey !in data ==>
      && r.status == 200
      && r.store.Keys == store.Keys
      && (forall k :: k in store && k != id ==> r.store[k] == store[k])
      && (forall f :: f in RequiredFields ==>
            Field(r.store[id], f) == (if f in data then data[f] else Field(store[id], f)))
      && r.body == Obj(ToDict(r.store[id]))
  {
    var r := HandleErrors(store, UpdateOutcome(store, id, data, commit));
    if id in store && commit.Commits? && IdKey !in data then
      UpdateCommitted(store, id, data);
      r
    else
      r
  }

  /** A committed update replaces the one row by its patched version and
      keeps every other row. */
  lemma UpdateCommitted(store: Store, id: int, data: Body)
    requires id in store
    requires IdKey !in data
    ensures var r := HandleErrors(store, UpdateOutcome(store, id, data, Commits));
      && r == Reply(200, Obj(ToDict(ApplyPatch(store[id], data))), store[id := ApplyPatch(store[id], data)])
      && r.store.Keys == store.Keys
      && (forall k :: k in store && k != id ==> r.store[k] == store[k])
      && (forall f :: f in RequiredFields ==>
            Field(r.store[id], f) == (if f in data then data[f] else Field(store[id], f)))
  {
    var updated := ApplyPatch(store[id], data);
    var m: map<int, Plant> := store;
    UpdateKeepsOthers(m, id, updated);
    CommittedUpdateReply(store, id, data);
  }

  /** The reply of a committed update, before the wrapper's table is read. */
  lemma CommittedUpdateReply(store: Store, id: int, data: Body)
    requires id in store
    ensures HandleErrors(store, UpdateOutcome(store, id, data, Commits))
      == Reply(200, Obj(ToDict(ApplyPatch(store[id], data))), store[id := ApplyPatch(store[id], data)])
  {
  }

  /** Overwriting one key of a map keeps its key set and leaves the other
      keys' values alone. */
  lemma UpdateKeepsOthers<K, V>(m: map<K, V>, key: K, v: V)
    requires key in m
    ensures m[key := v].Keys == m.Keys
    ensures forall k :: k in m && k != key ==> m[key := v][k] == m[k]
  {
  }

  /** Create raises an HTTP kind only from validation, before it adds its
      row, so such a raise carries the pre-request store. */
  lemma CreateRaisesBeforeWriting(store: Store, data: Body, newId: int, commit: Commit)
    requires newId !in store
    ensures var o := CreateOutcome(store, data, newId, commit);
      o.Raised? && !o.error.Other? ==> o.pending == store
  {
  }

  /** Update raises only from its commit, so only the catch-all kind. */
  lemma UpdateRaisesOnlyOther(store: Store, id: int, data: Body, commit: Commit)
    ensures var o := UpdateOutcome(store, id, data, commit); o.Raised? ==> o.error.Other?
  {
  }

  /** The body of `PlantByID.delete`. */
  function DestroyOutcome(store: Store, id: int, commit: Commit): Outcome
  {
    match GetPlantById(store, id)
    case None => Returned(404, MessageBody(PlantNotFoundMessage), store)
    case Some(plant) => AfterCommit(commit, Remove(store, plant.id), 204, Str(""))
  }

  /** Delete raises only from its commit, so only the catch-all kind. */
  lemma DestroyRaisesOnlyOther(store: Store, id: int, commit: Commit)
    ensures var o := DestroyOutcome(store, id, commit); o.Raised? ==> o.error.Other?
  {
  }

  /** `DELETE /plants/<id>`. An absent id gives 404 and no change; a failed
      commit gives 422 and no change; otherwise exactly that row is removed,
      every other row is kept as it was, and the reply is 204 with an empty
      body. */
  function DestroyPlant(store: Store, id: int, commit: Commit): (r: Reply)
    ensures id !in store ==> r == Reply(404, MessageBody(PlantNotFoundMessage), store)
    ensures id in store && commit.Fails? ==>
      r == Reply(422, MessageBody(commit.message), store)
    ensures id in store && commit.Commits? ==>
      && r.status == 204
      && r.body == Str("")
      && r.store.Keys == store.Keys - {id}
      && (forall k :: k in r.store ==> r.store[k] == store[k])
  {
    HandleErrors(store, DestroyOutcome(store, id, commit))
  }
}
