# Record store and its HTTP handlers, in Dafny

This project models the core of a small record-management web API: the
in-memory record store `InMemoryRecordService` and the handler bodies of
`MapRecordEndpoints`, which turn a request and the store's answer into an
HTTP result.

- `wrappers.dfy` — `Option`, for nullable results and nullable dates.
- `models.dfy` — `Record` (an id and twelve client-supplied fields),
  `DateTime` as ticks, `Decimal` as coefficient and scale, and
  `Overwrite`, the field-by-field copy the update performs.
- `dtos.dfy` — the POST and PUT request bodies.
- `record_service.dfy` — the store state `Store(records, nextId)`, its
  invariant `Valid`, the seeding constructor and the five operations
  (list, get, create, update, delete) as pure functions from the old state
  to the new state and the result.
- `store_laws.dfy` — how the operations interact: what a lookup sees after
  each mutation, and which lookups each mutation leaves alone.
- `history.dfy` — arbitrary sequential histories of store calls: the
  invariant along a history, ids never handed out twice, list length
  accounting, insertion order.
- `text.dfy` — decimal text for an `int`, as written into the `Location`
  of a created record, with its parser.
- `record_endpoints.dfy` — the five handlers, each returning the store
  after the call and the response (`Ok`, `Created`, `NoContent`,
  `BadRequest`, `NotFound`, with their status codes).
- `scenarios.dfy` — a create/read/update/delete walk through the handlers.

The store invariant: the counter is at least 1, every stored id lies in
`[1, nextId)`, and ids are pairwise distinct. Every operation preserves it.
The seeded store satisfies it.

Decisions:

- Seeding gives the three sample records `_nextId++` in turn and appends
  them. This is modelled as three creates from an empty store with the
  counter at 1, which has the same effect.
- The constructor reads `DateTime.UtcNow` twelve times, once per date
  field it sets. `Seed` takes those twelve readings as a parameter, in
  evaluation order, and assumes no relation between them.
- `_records.Remove(record)` removes the first element equal to the first
  match by id. That element is the first match itself, under reference or
  value equality alike. Delete is therefore modelled as removal at the
  first-match position.
- Records are values. The source's aliasing (create stores the caller's
  object, update returns the stored object) has no observable effect
  within one operation. The model does not represent it.

## Model

| member | source | states |
|---|---|---|
| RecordService.FindIndex | src/RecordManagement.Api/Services/RecordService.cs:82 | finds the first position whose id matches, or reports that no position matches |
| RecordService.Seed | src/RecordManagement.Api/Services/RecordService.cs:17-72 | the constructed store satisfies the invariant; it holds exactly three records with ids 1, 2, 3 in that order; the counter is 4; each record carries its sample's fields, each date taken from its own clock reading |
| RecordService.GetAll | src/RecordManagement.Api/Services/RecordService.cs:75-78 | returns every stored record, in list order; the store is a value the call does not change |
| RecordService.GetById | src/RecordManagement.Api/Services/RecordService.cs:80-84 | finds a record exactly when the id is held, and the record found is the first one carrying the id |
| RecordService.Create | src/RecordManagement.Api/Services/RecordService.cs:86-91 | ignores the incoming id and assigns the counter's value, which no stored record holds; keeps the other twelve fields; appends at the end; advances the counter by exactly one; keeps the invariant |
| RecordService.Update | src/RecordManagement.Api/Services/RecordService.cs:93-113 | with an absent id, returns none and changes nothing; otherwise the first match gets all twelve fields of the argument and keeps its id and position, every other position and the counter are unchanged, and the returned record equals the argument; keeps the invariant |
| RecordService.Delete | src/RecordManagement.Api/Services/RecordService.cs:115-123 | returns true exactly when the id is held; when it is absent nothing changes; otherwise exactly the first match is removed, the rest keep their order, the length drops by one and the counter is untouched; keeps the invariant |
| Models.Overwrite | src/RecordManagement.Api/Services/RecordService.cs:99-110 | the updated record keeps the existing id and takes all twelve other fields from the incoming record |
| StoreLaws.GetByIdUnique | src/RecordManagement.Api/Services/RecordService.cs:80-84 | in a valid store, a lookup returns a record exactly when that record is stored with the id (the first match is the only match) |
| StoreLaws.GetAfterCreate | src/RecordManagement.Api/Services/RecordService.cs:86-91 | looking up the id a create assigned returns the created record |
| StoreLaws.CreateFrame | src/RecordManagement.Api/Services/RecordService.cs:86-91 | a create changes the lookup of no id other than the one it assigns |
| StoreLaws.GetAfterUpdate | src/RecordManagement.Api/Services/RecordService.cs:95-112 | after an update of a held id, looking up the id returns the argument |
| StoreLaws.UpdateFrame | src/RecordManagement.Api/Services/RecordService.cs:95-112 | an update changes the lookup of no other id |
| StoreLaws.DeleteRemovesId | src/RecordManagement.Api/Services/RecordService.cs:115-123 | in a valid store, after a delete the id looks up nothing, and the held ids are the old ones minus exactly that id |
| StoreLaws.DeleteFrame | src/RecordManagement.Api/Services/RecordService.cs:115-123 | in a valid store, a delete changes the lookup of no other id |
| StoreLaws.DeleteRemovesOneRecord | src/RecordManagement.Api/Services/RecordService.cs:117-122 | a successful delete removes exactly one copy of the record the id looked up; every other record stays (as multisets) |
| History.Apply | src/RecordManagement.Api/Services/RecordService.cs:75-123 | list and get leave the store unchanged; only create moves the counter, by one; every call keeps the invariant |
| History.RunPreservesValid | src/RecordManagement.Api/Services/RecordService.cs:16-17 | every history of calls from a valid store ends in a valid store |
| History.CounterCountsCreates | src/RecordManagement.Api/Services/RecordService.cs:88 | over any history the counter grows by exactly the number of creates |
| History.CreatedIdsIncrease | src/RecordManagement.Api/Services/RecordService.cs:86-91 | the ids creates assign along any history are strictly increasing, start at the initial counter and stay below the final one, so none is assigned twice even across deletes |
| History.DeletedIdNeverReassigned | src/RecordManagement.Api/Services/RecordService.cs:115-123 | an id removed by a delete is never assigned by any later create |
| History.LengthAccounting | src/RecordManagement.Api/Services/RecordService.cs:86-123 | after any history, the list length equals the starting length plus the creates minus the deletes that returned true |
| History.ListKeepsCreationOrder | src/RecordManagement.Api/Services/RecordService.cs:75-91 | after a run of creates, every reply is a created record and the list is the old list followed by the created records in creation order |
| Text.NatRoundTrip | src/RecordManagement.Api/Endpoints/RecordEndpoints.cs:56 | the decimal text of a natural parses back to that natural |
| Text.IntRoundTrip | src/RecordManagement.Api/Endpoints/RecordEndpoints.cs:56 | the text of an integer, minus sign included, parses back to that integer |
| RecordEndpoints.GetAllRecords | src/RecordManagement.Api/Endpoints/RecordEndpoints.cs:17-21 | answers 200 with exactly the store's list in list order and leaves the store unchanged |
| RecordEndpoints.GetRecordById | src/RecordManagement.Api/Endpoints/RecordEndpoints.cs:27-31 | answers 200 exactly when the id is held, with a stored record carrying the id; otherwise 404; the store is unchanged |
| RecordEndpoints.CreateRecord | src/RecordManagement.Api/Endpoints/RecordEndpoints.cs:37-57 | answers 201 with a record carrying every request field and the counter's value as id, located at /api/records/{that id}; the store gains exactly that record at the end and the counter advances by one |
| RecordEndpoints.UpdateRecord | src/RecordManagement.Api/Endpoints/RecordEndpoints.cs:63-87 | a path id different from the body id answers 400 "ID mismatch" with the store unchanged; otherwise 200 exactly when the id is held, with a record carrying every request field including the id, stored at the first match's position; an unknown id answers 404 with the store unchanged |
| RecordEndpoints.DeleteRecord | src/RecordManagement.Api/Endpoints/RecordEndpoints.cs:93-97 | answers 204 exactly when the id is held, after which exactly the first record with the id is gone, the others keep their order and values, the list is one shorter and the counter unchanged; otherwise 404 with the store unchanged |
| RecordEndpoints.CreatedLocationNamesId | src/RecordManagement.Api/Endpoints/RecordEndpoints.cs:56 | the location of a created record, read back, names the id the record was given |
| RecordEndpoints.GetAfterPost | src/RecordManagement.Api/Endpoints/RecordEndpoints.cs:37-57 | in a valid store, a GET of the id a POST was given answers 200 with the created record |
| RecordEndpoints.ListAfterPost | src/RecordManagement.Api/Endpoints/RecordEndpoints.cs:37-57 | a GET of the list after a POST shows the old list followed by the created record |
| RecordEndpoints.GetAfterDelete | src/RecordManagement.Api/Endpoints/RecordEndpoints.cs:93-97 | in a valid store, after a DELETE a GET of the id answers 404, and exactly that id is gone |
| RecordEndpoints.GetAfterPut | src/RecordManagement.Api/Endpoints/RecordEndpoints.cs:63-87 | a PUT of a held id answers 200, and a following GET returns the same response |
| Scenarios.PostAfterSeed | src/RecordManagement.Api/Services/RecordService.cs:17-91 | the first POST after seeding gets id 4 and location /api/records/4, and a GET of 4 returns it |
| Scenarios.PutThenGet | src/RecordManagement.Api/Endpoints/RecordEndpoints.cs:68-86 | a PUT of a held id answers 200 and a following GET returns the record built from the PUT body |
| Scenarios.Lifecycle | src/RecordManagement.Api/Endpoints/RecordEndpoints.cs:17-97 | from any valid store: POST, then PUT of the new id, then DELETE; the GET after the PUT shows the PUT body, and after the DELETE (204) a GET answers 404 and no listed record carries the id |
| Scenarios.ProjectXLifecycle | src/RecordManagement.Api/Endpoints/RecordEndpoints.cs:17-97 | from the seeded store, "Project X" gets id 4, a rename to "Project X2" is visible to GET, and after the DELETE a GET of 4 answers 404 |
| Scenarios.MismatchedPutIsRefused | src/RecordManagement.Api/Endpoints/RecordEndpoints.cs:65-66 | a PUT to path id 5 with body id 6 answers 400 "ID mismatch" and leaves the store unchanged |

## Left out

- RecordService.Create: does not model the 32-bit wrap-around of `_nextId`. The counter is an unbounded natural, because wrap-around needs more than two billion creates.
- Service lifetime: one `Program.cs` registers the store as scoped, which gives a fresh seeded store per request. The other registers it as a singleton. The model has one store value that handlers pass along, and leaves the lifetime to the host.
- Route registration, OpenAPI metadata, authentication, authorization, CORS, Swagger, HTTPS redirection, and the `/health` and `/dev/login` endpoints: framework configuration with no logic of its own.
- The `{id:int}` route constraint: a path id that is not a 32-bit integer never reaches a handler. Handler ids here are unbounded integers.
- The `[Required]` and `[StringLength(200)]` annotations on the request bodies: no code shown enforces them. The framework's model validation is not part of this model.
- JSON serialization of requests and responses, and the asynchronous `Task` wrappers; operations are synchronous.
- Concurrency: the list is not thread-safe, and concurrent access is not modelled.
- Dates and decimals are only copied. `DateTime.AddDays` range errors and decimal arithmetic are not modelled.
- Culture-specific number formatting in the `Location` string: the model writes the invariant-culture form. Under the invariant the ids are positive, so only digits appear.
