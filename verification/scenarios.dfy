/** A create/read/update/delete walk through the HTTP handlers, starting
    from the seeded store. */
module Scenarios {
  import opened Wrappers
  import opened Models
  import opened Dtos
  import opened RecordService
  import opened RecordEndpoints

  function ProjectX(now: DateTime): CreateRecordRequest
  {
    CreateRecordRequest(now, "Project X",
      Decimal(100, 1), Decimal(200, 1), Decimal(300, 1), Decimal(400, 1),
      None, None, None, None, "Acme", "Jo")
  }

  /** A PUT body that repeats `create` under id `id` with a new name. */
  function Rename(create: CreateRecordRequest, id: int, name: string): UpdateRecordRequest
  {
    UpdateRecordRequest(id, create.date, name,
      create.alpha, create.beta, create.gamma, create.delta,
      create.milestone1StartDate, create.milestone1CompletionDate,
      create.milestone2StartDate, create.milestone2CompletionDate,
      create.clientName, create.agentName)
  }

  /** POST after seeding gets id 4, is served at /api/records/4, and a GET
      of 4 returns it. */
  lemma PostAfterSeed(clock: seq<DateTime>, now: DateTime)
    requires |clock| == ClockReadings
    ensures var post := CreateRecord(Seed(clock), ProjectX(now));
      && post.response.record.id == 4
      && post.response.location == "/api/records/4"
      && GetRecordById(post.store, 4).response == Ok(One(post.response.record))
      && Valid(post.store)
      && 4 in Ids(post.store)
  {
    var s0 := Seed(clock);
    GetAfterPost(s0, ProjectX(now));
    assert Text.IntToString(4) == "4";
  }

  /** A POST into a valid store leaves it valid, holding the new id. */
  lemma PostThenHeld(s: Store, create: CreateRecordRequest)
    requires Valid(s)
    ensures var post := CreateRecord(s, create);
      && post.response.record.id == s.nextId
      && Valid(post.store)
      && s.nextId in Ids(post.store)
  {
    var post := CreateRecord(s, create);
    assert post.store.records[|s.records|] == post.response.record;
  }

  /** A PUT of a held id makes a following GET return the PUT body, and
      leaves the id held. */
  lemma PutThenGet(s: Store, request: UpdateRecordRequest)
    requires Valid(s) && request.id in Ids(s)
    ensures var put := UpdateRecord(s, request.id, request);
      && put.response.StatusCode() == 200
      && GetRecordById(put.store, request.id).response == Ok(One(FromUpdateRequest(request)))
      && Valid(put.store)
      && request.id in Ids(put.store)
  {
    GetAfterPut(s, request);
  }

  /** A DELETE of a held id answers 204; afterwards a GET answers 404 and
      no listed record carries the id. */
  lemma DeleteThenGet(s: Store, id: int)
    requires Valid(s) && id in Ids(s)
    ensures var del := DeleteRecord(s, id);
      && del.response.StatusCode() == 204
      && GetRecordById(del.store, id).response.StatusCode() == 404
      && forall r :: r in GetAllRecords(del.store).response.body.records ==> r.id != id
  {
    var del := DeleteRecord(s, id);
    GetAfterDelete(s, id);
    forall r | r in del.store.records
      ensures r.id != id
    {
      assert r.id in Ids(del.store);
    }
  }

  /** The walk from any valid store: POST gets the counter's value as id;
      PUT of that id renames the record; DELETE answers 204; afterwards GET
      answers 404 and no listed record carries the id. */
  lemma Lifecycle(s: Store, create: CreateRecordRequest, rename: string)
    requires Valid(s)
    ensures var post := CreateRecord(s, create);
      var id := post.response.record.id;
      var req := Rename(create, id, rename);
      var put := UpdateRecord(post.store, id, req);
      var del := DeleteRecord(put.store, id);
      && id == s.nextId
      && GetRecordById(put.store, id).response == Ok(One(FromUpdateRequest(req)))
      && del.response.StatusCode() == 204
      && GetRecordById(del.store, id).response.StatusCode() == 404
      && forall r :: r in GetAllRecords(del.store).response.body.records ==> r.id != id
  {
    var post := CreateRecord(s, create);
    var id := post.response.record.id;
    PostThenHeld(s, create);
    var req := Rename(create, id, rename);
    PutThenGet(post.store, req);
    var put := UpdateRecord(post.store, id, req);
    DeleteThenGet(put.store, id);
  }

  /** The walk from the seeded store with the "Project X" record: it gets
      id 4, and after the rename a GET of 4 shows "Project X2". */
  lemma ProjectXLifecycle(clock: seq<DateTime>, now: DateTime)
    requires |clock| == ClockReadings
    ensures var post := CreateRecord(Seed(clock), ProjectX(now));
      var put := UpdateRecord(post.store, 4, Rename(ProjectX(now), 4, "Project X2"));
      && post.response.record.id == 4
      && GetRecordById(put.store, 4).response.Ok?
      && GetRecordById(put.store, 4).response.body.record.name == "Project X2"
      && DeleteRecord(put.store, 4).response.StatusCode() == 204
      && GetRecordById(DeleteRecord(put.store, 4).store, 4).response.StatusCode() == 404
  {
    var s0 := Seed(clock);
    assert Valid(s0) && s0.nextId == 4;
    Lifecycle(s0, ProjectX(now), "Project X2");
  }

  /** A PUT whose path and body ids disagree is refused before the store is
      consulted. */
  lemma MismatchedPutIsRefused(clock: seq<DateTime>, now: DateTime)
    requires |clock| == ClockReadings
    ensures var s := Seed(clock);
      UpdateRecord(s, 5, Rename(ProjectX(now), 6, "Project X2")) == Exchange(s, BadRequest("ID mismatch"))
  {
  }
}
