/** The handler bodies of `MapRecordEndpoints`: each maps a request and the
    store's answer to an HTTP response. A handler takes the store's state
    and returns the state after the call together with the response. */
module RecordEndpoints {
  import opened Wrappers
  import opened Models
  import opened Dtos
  import opened RecordService
  import Text
  import StoreLaws

  /** Route prefix of the record endpoints. */
  const RoutePrefix: string := "/api/records"

  /** Response body of a 200. */
  datatype Body = Many(records: seq<Record>) | One(record: Record)

  /** The results the handlers produce: `Results.Ok`, `Results.Created`,
      `Results.NoContent`, `Results.BadRequest` and `Results.NotFound`. */
  datatype Response =
    | Ok(body: Body)
    | Created(location: string, record: Record)
    | NoContent
    | BadRequest(message: string)
    | NotFound
  {
    function StatusCode(): int
    {
      match this
      case Ok(_) => 200
      case Created(_, _) => 201
      case NoContent => 204
      case BadRequest(_) => 400
      case NotFound => 404
    }
  }

  /** The store after the call and the response sent. */
  datatype Exchange = Exchange(store: Store, response: Response)

  /** `Location` of the record with id `id`. */
  function LocationOf(id: int): string
  {
    RoutePrefix + "/" + Text.IntToString(id)
  }

  /** The id a `Location` value names, if it names one. */
  function IdOfLocation(location: string): Option<int>
  {
    var prefix := RoutePrefix + "/";
    if |prefix| <= |location| && location[..|prefix|] == prefix then
      Text.ParseInt(location[|prefix|..])
    else
      None
  }

  /** The record carries every field of the POST body. */
  predicate CopiesCreateRequest(request: CreateRecordRequest, r: Record)
  {
    && r.date == request.date
    && r.name == request.name
    && r.alpha == request.alpha
    && r.beta == request.beta
    && r.gamma == request.gamma
    && r.delta == request.delta
    && r.milestone1StartDate == request.milestone1StartDate
    && r.milestone1CompletionDate == request.milestone1CompletionDate
    && r.milestone2StartDate == request.milestone2StartDate
    && r.milestone2CompletionDate == request.milestone2CompletionDate
    && r.clientName == request.clientName
    && r.agentName == request.agentName
  }

  /** The record carries every field of the PUT body, its id included. */
  predicate CopiesUpdateRequest(request: UpdateRecordRequest, r: Record)
  {
    && r.id == request.id
    && r.date == request.date
    && r.name == request.name
    && r.alpha == request.alpha
    && r.beta == request.beta
    && r.gamma == request.gamma
    && r.delta == request.delta
    && r.milestone1StartDate == request.milestone1StartDate
    && r.milestone1CompletionDate == request.milestone1CompletionDate
    && r.milestone2StartDate == request.milestone2StartDate
    && r.milestone2CompletionDate == request.milestone2CompletionDate
    && r.clientName == request.clientName
    && r.agentName == request.agentName
  }

  /** The record the POST handler builds; `Id` keeps its default, 0. */
  function FromCreateRequest(request: CreateRecordRequest): Record
  {
    Record(0, request.date, request.name,
      request.alpha, request.beta, request.gamma, request.delta,
      request.milestone1StartDate, request.milestone1CompletionDate,
      request.milestone2StartDate, request.milestone2CompletionDate,
      request.clientName, request.agentName)
  }

  /** The record the PUT handler builds. */
  function FromUpdateRequest(request: UpdateRecordRequest): Record
  {
    Record(request.id, request.date, request.name,
      request.alpha, request.beta, request.gamma, request.delta,
      request.milestone1StartDate, request.milestone1CompletionDate,
      request.milestone2StartDate, request.milestone2CompletionDate,
      request.clientName, request.agentName)
  }

  /** GET /api/records: 200 with the whole list, in list order. */
  function GetAllRecords(s: Store): (x: Exchange)
    ensures x.store == s
    ensures x.response.StatusCode() == 200
    ensures x.response == Ok(Many(s.records))
  {
    Exchange(s, Ok(Many(GetAll(s))))
  }

  /** GET /api/records/{id}: 200 with the record when the store has the id,
      404 otherwise. */
  function GetRecordById(s: Store, id: int): (x: Exchange)
    ensures x.store == s
    ensures x.response.StatusCode() == 200 <==> id in Ids(s)
    ensures x.response.StatusCode() != 200 ==> x.response == NotFound
    ensures x.response.Ok? ==>
      x.response.body.One? && x.response.body.record in s.records && x.response.body.record.id == id
  {
    match GetById(s, id)
    case Some(r) => Exchange(s, Ok(One(r)))
    case None => Exchange(s, NotFound)
  }

  /** POST /api/records: builds a record from the body, has the store
      create it, and answers 201 with the record and its location. */
  function CreateRecord(s: Store, request: CreateRecordRequest): (x: Exchange)
    ensures x.response.Created? && x.response.StatusCode() == 201
    ensures x.response.record.id == s.nextId
    ensures CopiesCreateRequest(request, x.response.record)
    ensures x.response.location == LocationOf(s.nextId)
    ensures x.store == Store(s.records + [x.response.record], s.nextId + 1)
    ensures Valid(s) ==> Valid(x.store)
  {
    var (s', created) := Create(s, FromCreateRequest(request));
    Exchange(s', Created(LocationOf(created.id), created))
  }

  /** PUT /api/records/{id}: 400 "ID mismatch" without touching the store
      when the path and body ids differ; otherwise the store's update, 200
      with the updated record or 404 when the id is unknown. */
  function UpdateRecord(s: Store, id: int, request: UpdateRecordRequest): (x: Exchange)
    ensures id != request.id ==> x == Exchange(s, BadRequest("ID mismatch"))
    ensures id == request.id ==> (x.response.StatusCode() == 200 <==> id in Ids(s))
    ensures id == request.id && id !in Ids(s) ==> x == Exchange(s, NotFound)
    ensures x.response.Ok? ==>
      && x.response.body.One?
      && CopiesUpdateRequest(request, x.response.body.record)
      && exists i :: IsFirstWithId(s.records, i, id)
           && x.store == s.(records := s.records[i := x.response.body.record])
    ensures Valid(s) ==> Valid(x.store)
  {
    if id != request.id then
      Exchange(s, BadRequest("ID mismatch"))
    else
      var (s', updated) := Update(s, FromUpdateRequest(request));
      match updated
      case Some(r) => Exchange(s', Ok(One(r)))
      case None => Exchange(s', NotFound)
  }

  /** DELETE /api/records/{id}: 204 when the store removed the record, 404
      (and an unchanged store) otherwise. */
  function DeleteRecord(s: Store, id: int): (x: Exchange)
    ensures x.response.StatusCode() == 204 <==> id in Ids(s)
    ensures id !in Ids(s) ==> x == Exchange(s, NotFound)
    ensures id in Ids(s) ==>
      && x.response == NoContent
      && |x.store.records| == |s.records| - 1
      && x.store.nextId == s.nextId
      && exists i :: IsFirstWithId(s.records, i, id)
           && x.store == s.(records := s.records[..i] + s.records[i + 1..])
    ensures Valid(s) ==> Valid(x.store)
  {
    var (s', deleted) := Delete(s, id);
    if deleted then Exchange(s', NoContent) else Exchange(s', NotFound)
  }

  // ---------------------------------------------------------------------
  // Properties across handlers
  // ---------------------------------------------------------------------

  /** The `Location` of a created record names the id it was given. */
  lemma CreatedLocationNamesId(s: Store, request: CreateRecordRequest)
    ensures var r := CreateRecord(s, request).response;
      IdOfLocation(r.location) == Some(r.record.id)
  {
    var r := CreateRecord(s, request).response;
    var prefix := RoutePrefix + "/";
    assert r.location[..|prefix|] == prefix;
    assert r.location[|prefix|..] == Text.IntToString(r.record.id);
    Text.IntRoundTrip(r.record.id);
  }

  /** A GET of the id a POST was given returns 200 with the created record. */
  lemma GetAfterPost(s: Store, request: CreateRecordRequest)
    requires Valid(s)
    ensures var x := CreateRecord(s, request);
      GetRecordById(x.store, x.response.record.id).response == Ok(One(x.response.record))
  {
    StoreLaws.GetAfterCreate(s, FromCreateRequest(request));
  }

  /** The created record sits at the end of a following GET of the list. */
  lemma ListAfterPost(s: Store, request: CreateRecordRequest)
    ensures var x := CreateRecord(s, request);
      GetAllRecords(x.store).response == Ok(Many(s.records + [x.response.record]))
  {
  }

  /** After a DELETE that answered 204, a GET of that id answers 404 and the
      rest of the list is as it was. */
  lemma GetAfterDelete(s: Store, id: int)
    requires Valid(s)
    ensures var x := DeleteRecord(s, id);
      && GetRecordById(x.store, id).response == NotFound
      && Ids(x.store) == Ids(s) - {id}
  {
    StoreLaws.DeleteRemovesId(s, id);
  }

  /** A PUT that answered 200 makes a following GET return the PUT body's
      fields. */
  lemma GetAfterPut(s: Store, request: UpdateRecordRequest)
    requires request.id in Ids(s)
    ensures var x := UpdateRecord(s, request.id, request);
      && x.response.Ok?
      && GetRecordById(x.store, request.id).response == x.response
  {
    StoreLaws.GetAfterUpdate(s, FromUpdateRequest(request));
  }
}
