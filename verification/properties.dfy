/** How the handlers behave in sequence, and what holds of every request. */
module Properties {
  import opened Json
  import opened Plants
  import opened Errors
  import opened Resources

  /** A routed request: the two resources and their five verbs. */
  datatype Request =
    | ListAll                     // GET /plants
    | Create(data: Body)          // POST /plants
    | Show(id: int)               // GET /plants/<id>
    | Update(id: int, data: Body) // PATCH /plants/<id>
    | Destroy(id: int)            // DELETE /plants/<id>

  /** One request against the store. `newId` is the id the store would assign
      to a created row; `commit` is how the request's commit turns out. */
  function Serve(store: Store, req: Request, newId: int, commit: Commit): (r: Reply)
    requires newId !in store
    ensures r.status in {200, 201, 204, 400, 404, 422}
    ensures r.status >= 400 ==> r.store == store
    ensures req.ListAll? || req.Show? ==> r.store == store
    ensures commit.Fails? ==> r.store == store
  {
    match req
    case ListAll => ListPlants(store)
    case Create(data) => CreatePlant(store, data, newId, commit)
    case Show(id) => ShowPlant(store, id)
    case Update(id, data) => UpdatePlant(store, id, data, commit)
    case Destroy(id) => DestroyPlant(store, id, commit)
  }

  /** Reading a created row back by its id gives exactly what the create
      returned. */
  lemma CreateThenShow(store: Store, data: Body, newId: int)
    requires newId !in store
    requires HasRequired(data)
    ensures
      var created := CreatePlant(store, data, newId, Commits);
      ShowPlant(created.store, newId) == Reply(200, created.body, created.store)
  {
  }

  /** After a successful delete the id is gone: reading it gives 404. */
  lemma DestroyThenShow(store: Store, id: int)
    requires id in store
    ensures
      var deleted := DestroyPlant(store, id, Commits);
      ShowPlant(deleted.store, id) == Reply(404, MessageBody(PlantNotFoundMessage), deleted.store)
  {
  }

  /** Deleting the row a create just made gives back the table as it was. */
  lemma CreateThenDestroy(store: Store, data: Body, newId: int)
    requires newId !in store
    requires HasRequired(data)
    ensures DestroyPlant(CreatePlant(store, data, newId, Commits).store, newId, Commits)
      == Reply(204, Str(""), store)
  {
    var row := NewPlant(newId, data);
    var created := CreatePlant(store, data, newId, Commits);
    assert created.store == store[newId := row];
    RemoveAfterAdd(store, newId, row);
    assert DestroyPlant(created.store, newId, Commits).store == created.store - {newId};
  }

  /** Adding a fresh key and then removing it gives the map back. */
  lemma RemoveAfterAdd<K, V>(m: map<K, V>, key: K, v: V)
    requires key !in m
    ensures m[key := v] - {key} == m
  {
    assert (m[key := v] - {key}).Keys == m.Keys;
  }

  /** Writing a key's own value back leaves the map as it was. */
  lemma UpdateSameValue<K, V>(m: map<K, V>, key: K)
    requires key in m
    ensures m[key := m[key]] == m
  {
  }

  /** Reading a row right after updating it gives what the update returned. */
  lemma UpdateThenShow(store: Store, id: int, data: Body)
    requires id in store
    requires IdKey !in data
    ensures
      var updated := UpdatePlant(store, id, data, Commits);
      ShowPlant(updated.store, id) == Reply(200, updated.body, updated.store)
  {
  }

  /** Sending the same update twice has the effect of sending it once. */
  lemma UpdateIdempotent(store: Store, id: int, data: Body)
    requires id in store
    requires IdKey !in data
    ensures
      var once := UpdatePlant(store, id, data, Commits);
      UpdatePlant(once.store, id, data, Commits) == once
  {
    var p := ApplyPatch(store[id], data);
    var once := UpdatePlant(store, id, data, Commits);
    UpdateCommitted(store, id, data);
    var twice := UpdatePlant(once.store, id, data, Commits);
    UpdateCommitted(once.store, id, data);
    assert ApplyPatch(p, data) == p;
    UpdateSameValue(once.store, id);
  }

  /** An update with an empty body changes nothing and answers like a read. */
  lemma UpdateWithEmptyBody(store: Store, id: int)
    requires id in store
    ensures UpdatePlant(store, id, map[], Commits) == ShowPlant(store, id)
  {
    UpdateCommitted(store, id, map[]);
    assert ApplyPatch(store[id], map[]) == store[id];
    UpdateSameValue(store, id);
  }

  /** An update that names every data field leaves the row exactly as a
      create with the same body would have built it. */
  lemma UpdateWithAllFieldsRebuilds(store: Store, id: int, data: Body)
    requires id in store
    requires HasRequired(data)
    requires IdKey !in data
    ensures UpdatePlant(store, id, data, Commits).store[id] == NewPlant(id, data)
  {
  }

  /** After a successful create the list is not empty and has one more row. */
  lemma CreateThenList(store: Store, data: Body, newId: int)
    requires newId !in store
    requires HasRequired(data)
    ensures
      var listed := ListPlants(CreatePlant(store, data, newId, Commits).store);
      listed.status == 200 && |listed.body.items| == |store| + 1
  {
  }

  /** After a successful delete the list has one row fewer. */
  lemma DestroyThenList(store: Store, id: int)
    requires id in store
    ensures
      var listed := ListPlants(DestroyPlant(store, id, Commits).store);
      |store| == 1 ==> listed.status == 404
    ensures
      var listed := ListPlants(DestroyPlant(store, id, Commits).store);
      |store| > 1 ==> listed.status == 200 && |listed.body.items| == |store| - 1
  {
  }
}
