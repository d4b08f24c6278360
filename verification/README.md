# Plant records: a verified model of the CRUD handlers

This project models the live request handlers of a small Flask/SQLAlchemy
service that keeps "plant" records (name, image, price, in-stock flag) in one
table: the required-field check `validate_plant`, the wire projection
`plant_to_dict`, the error wrapper `handle_errors`, the lookup
`get_plant_by_id`, and the five handlers of the two resources `/plants`
(GET, POST) and `/plants/<id>` (GET, PATCH, DELETE).

The database is replaced by a finite map from primary key to `Plant` row
(`Plants.Store`, a map whose key always equals the row's `id` column). Every
handler is a pure function from the store and the parsed request to a
`Reply`: the status code, the JSON body, and the store the next request sees.
Each handler body first produces an `Outcome` (it returned, or it raised an
exception, carrying the session's store at that point), and `Errors.HandleErrors` turns that
into the reply exactly as the decorator does: the five HTTP exception kinds
become 400/401/403/404/500 with `{"error": ...}`, and any other exception
rolls back to the pre-request store and becomes 422 with `{"message": ...}`.

Things the handlers cannot see enter as parameters:

- `newId`: the id the store assigns to a created row, only known to be absent
  from the table;
- `commit`: whether the request's single commit succeeds (`Commits`) or
  raises with some text (`Fails(message)`), which is how the 422 path is
  reached.

Files: `json.dfy` (JSON values), `wrappers.dfy` (Option/Result),
`ordered.dfy` (ascending key order for table scans), `plants.dfy` (record,
table, projection, lookup), `errors.dfy` (exception table), `resources.dfy`
(validation and the five handlers), `properties.dfy` (request routing and
properties of handler sequences).

## Model

| member | source | states |
|---|---|---|
| Resources.FirstMissing | server/app.py:197-198 | Checking the required fields in order finds none missing exactly when every one is in the body; the one it reports is the first required field, in list order, that the body lacks |
| Resources.ValidatePlant | server/app.py:196-200 | Fails with BadRequest "Missing required field" exactly when some of name, image, price, is_in_stock is absent; otherwise yields the body unchanged |
| Plants.ToDict | server/app.py:203-210 | The projection has exactly the keys id, name, image, price, is_in_stock; id is the row's id and each data field is copied unchanged |
| Plants.FromToDict | server/app.py:203-210 | Reading a projection back gives the original row, so the projection loses nothing |
| Plants.ToFromDict | server/app.py:203-210 | An object reads back as a row exactly when it is that row's projection |
| Plants.ToDictInjective | server/app.py:203-210 | Distinct rows have distinct projections |
| Errors.HandleErrors | server/app.py:213-231 | A returned response passes through; NotFound, BadRequest, Unauthorized, Forbidden give 404, 400, 401, 403 with the description under "error"; InternalServerError gives 500 with the fixed message; any other exception gives 422 with its text under "message" and the pre-request store |
| Errors.RaisedStatusIdentifiesKind | server/app.py:217-229 | Each exception kind gets its own error status, so the status of a raised reply names the kind |
| Errors.RollbackOnlyForOther | server/app.py:225-229 | Only the catch-all branch calls rollback, restoring the pre-request store; the other branches pass the session's store through untouched |
| Resources.CreateRaisesBeforeWriting | server/app.py:244-248 | Create raises an HTTP kind only from validation, before adding its row, so such a raise carries the pre-request store |
| Resources.UpdateRaisesOnlyOther | server/app.py:271-279 | Update raises only from its commit, hence only the catch-all kind |
| Resources.DestroyRaisesOnlyOther | server/app.py:282-288 | Delete raises only from its commit, hence only the catch-all kind |
| Plants.Rows | server/app.py:237-238 | The table scan yields every row once and nothing else, in ascending id order |
| Plants.FirstWithId | server/app.py:258-260 | The result is the first row of the scan with the requested id (every earlier row has another id); there is none exactly when no scanned row has that id |
| Plants.GetPlantById | server/app.py:257-261 | The query finds a row exactly when the id is in the table, and then it is the row stored under that id |
| Resources.ProjectRowsListsTable | server/app.py:241 | Projecting the scan lists the table: one projection per row, each row's projection present, ascending ids |
| Resources.ListPlants | server/app.py:236-241 | 404 with "Plant not found" exactly when the table is empty; otherwise 200 with the table listed; the store never changes |
| Resources.NewPlant | server/app.py:247 | The new row has the assigned id and each data field equal to the body's value |
| Resources.CreatePlant | server/app.py:244-250 | 400 exactly when a required field is missing, then with the missing-field error and no change; a failed commit gives 422 and no change; otherwise 201, the table gains exactly the new id, every old row is unchanged, the new row holds the sent fields and the reply is its projection |
| Resources.ShowPlant | server/app.py:264-268 | 404 with "Plant not found" exactly when the id is absent; otherwise 200 with that row projected; the store never changes |
| Resources.ApplyPatch | server/app.py:276-277 | Every data field named in the body takes the body's value and every other data field keeps its own |
| Resources.UpdateCommitted | server/app.py:272-279 | For a body without an `id` key, a committed update stores the patched row under the id, keeps the key set and every other row, and replies 200 with the patched row |
| Resources.UpdatePlant | server/app.py:271-279 | 404 and no change for an absent id; 422 and no change when the commit fails; otherwise, for a body without an `id` key, 200, only that row changes, only the fields in the body change, and the reply is the updated row projected |
| Resources.DestroyPlant | server/app.py:282-288 | 404 and no change for an absent id; 422 and no change when the commit fails; otherwise 204 with an empty body, exactly that id removed and every other row kept |
| Properties.Serve | server/app.py:234-291 | Every request answers 200, 201, 204, 400, 404 or 422; every error status, every read and every failed commit leaves the store unchanged |
| Properties.CreateThenShow | server/app.py:244-268 | Reading a created row by the id it was given returns 200 with exactly the body the create returned |
| Properties.DestroyThenShow | server/app.py:264-288 | After a successful delete, reading the same id gives 404 "Plant not found" |
| Properties.CreateThenDestroy | server/app.py:244-288 | Deleting the row a create just made replies 204 and gives back the original table |
| Properties.UpdateThenShow | server/app.py:264-279 | Reading a row after updating it with a body without an `id` key returns what the update returned |
| Properties.UpdateIdempotent | server/app.py:271-279 | Sending the same update (without an `id` key) twice has the same reply and table as sending it once |
| Properties.UpdateWithEmptyBody | server/app.py:271-279 | An update with an empty body leaves the table alone and answers exactly as a read |
| Properties.UpdateWithAllFieldsRebuilds | server/app.py:247-277 | An update naming all four data fields and no `id` leaves the row as a create with the same body would build it |
| Properties.CreateThenList | server/app.py:236-250 | After a successful create, listing gives 200 with one more item than the table had |
| Properties.DestroyThenList | server/app.py:236-288 | After a successful delete, listing gives one item fewer, or 404 when the table becomes empty |

## Left out

- The commented-out earlier implementation at the top of `server/app.py` is dead code.
- Flask application set-up, SQLAlchemy and Flask-Migrate configuration, route registration and `app.run` are framework wiring; `Properties.Serve` stands in for the routing table.
- Request-body parsing (JSON or form data) is not modelled; a body is an already-parsed map from field name to JSON value, and form-data string coercion is left to the framework.
- SQL execution and the session's commit and rollback machinery are reduced to a map and a `Commit` parameter; the way the store chooses ids is not visible, so a created row's id is a parameter known only to be absent from the table (not that it is positive or never reused).
- The column types of the `Plant` model (`models.py`) are not part of this model: data fields hold whatever JSON value the client sent, and a price is an opaque number literal that is only copied. Type coercion or rejection by the ORM is not modelled, beyond a commit that may fail.
- Errors raised by the database while reading (the selects in the GET handlers and the lookup) are not modelled; only the commit of a writing handler can fail. In particular, an id above 2^63-1 passes the `<int:id>` route but makes the SQLite driver raise while binding the lookup, so the source answers 422 through the catch-all where `Resources.ShowPlant`, `Resources.UpdatePlant` and `Resources.DestroyPlant` answer 404.
- Routing itself is not modelled: a negative id never reaches the handlers, because the `<int:id>` converter rejects it and the framework answers 404 with its own body rather than `{"message": "Plant not found"}`; the model's handlers accept any integer id.
- Resources.CreatePlant: builds the row from the four required fields and ignores any other key of the body, because what `Plant(**data)` does with extra keys (including `id`) depends on `models.py`, which is not part of this model.
- Resources.UpdatePlant: states nothing about a committed update whose body has an `id` key. The source sets `id` like any other attribute, which renumbers the row (and fails the commit when the new id is taken); the column's coercion of the sent value lives in `models.py`, which is not part of this model, so the function's result for such bodies (it ignores the key) is not a claim.
- Resources.UpdateCommitted: requires a body without an `id` key, for the reason above.
- Properties.UpdateThenShow: requires a body without an `id` key; in the source, reading the old id after a renumbering gives 404.
- Properties.UpdateIdempotent: requires a body without an `id` key; in the source, a second renumbering request gives 404.
- Properties.UpdateWithAllFieldsRebuilds: requires a body without an `id` key, for the reason above.
- Resources.ApplyPatch: applies only the keys name, image, price and is_in_stock. Setting an unknown attribute does not touch the row, so ignoring unknown keys matches the source; the `id` key is covered by the Resources.UpdatePlant line.
- Plants.Rows: lists rows in ascending id order; the source's `select(Plant)` has no ORDER BY, so the order is whatever the database returns, and the model fixes it as a plain table scan's key order.
