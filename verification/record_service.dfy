/** `InMemoryRecordService`: an ordered list of records and a monotonic id
    counter, with the five store operations as pure functions from the old
    state to the new state and the operation's result. */
module RecordService {
  import opened Wrappers
  import opened Models

  /** The store's state: `_records` in list order and `_nextId`. */
  datatype Store = Store(records: seq<Record>, nextId: nat)

  /** The identifiers currently held. */
  function Ids(s: Store): set<int>
  {
    set r | r in s.records :: r.id
  }

  /** The store invariant: the counter is positive, every id lies in
      [1, nextId), and no two records share an id. */
  predicate Valid(s: Store)
  {
    && 1 <= s.nextId
    && (forall i :: 0 <= i < |s.records| ==> 1 <= s.records[i].id < s.nextId)
    && (forall i, j :: 0 <= i < j < |s.records| ==> s.records[i].id != s.records[j].id)
  }

  /** `i` is the position of the first record in `rs` whose id is `id`:
      what `FirstOrDefault(r => r.Id == id)` selects. */
  predicate IsFirstWithId(rs: seq<Record>, i: int, id: int)
  {
    0 <= i < |rs| && rs[i].id == id && forall j :: 0 <= j < i ==> rs[j].id != id
  }

  /** Linear scan for the first record carrying `id`. */
  function FindIndex(rs: seq<Record>, id: int): (r: Option<nat>)
    ensures r.Some? ==> IsFirstWithId(rs, r.value, id)
    ensures r.None? ==> forall j :: 0 <= j < |rs| ==> rs[j].id != id
  {
    if |rs| == 0 then None
    else if rs[0].id == id then Some(0)
    else match FindIndex(rs[1..], id)
      case None => None
      case Some(k) => Some(k + 1)
  }

  /** An id is held exactly when some position carries it. */
  lemma IdsByIndex(s: Store, id: int)
    ensures id in Ids(s) <==> exists i :: 0 <= i < |s.records| && s.records[i].id == id
  {
    if id in Ids(s) {
      var r :| r in s.records && r.id == id;
      var i :| 0 <= i < |s.records| && s.records[i] == r;
    }
  }

  // ---------------------------------------------------------------------
  // The five operations
  // ---------------------------------------------------------------------

  /** `GetAllRecordsAsync`: every stored record, in list order. */
  function GetAll(s: Store): (r: seq<Record>)
    ensures r == s.records
  {
    s.records
  }

  /** `GetRecordByIdAsync`: the first record with the id, or none. */
  function GetById(s: Store, id: int): (r: Option<Record>)
    ensures r.Some? <==> id in Ids(s)
    ensures r.Some? ==> exists i :: IsFirstWithId(s.records, i, id) && r.value == s.records[i]
  {
    IdsByIndex(s, id);
    match FindIndex(s.records, id)
    case None => None
    case Some(i) => Some(s.records[i])
  }

  /** `CreateRecordAsync`: the incoming id is ignored, the record is stored
      at the end under the current counter value, the counter advances by
      one, and the stored record is returned. */
  function Create(s: Store, rec: Record): (out: (Store, Record))
    ensures out.1.id == s.nextId && SameDetails(out.1, rec)
    ensures out.0.records == s.records + [out.1]
    ensures out.0.nextId == s.nextId + 1
    ensures Valid(s) ==> Valid(out.0) && s.nextId !in Ids(s)
  {
    var stored := rec.(id := s.nextId);
    var s' := Store(s.records + [stored], s.nextId + 1);
    assert Valid(s) ==> s.nextId !in Ids(s) by {
      IdsByIndex(s, s.nextId);
    }
    (s', stored)
  }

  /** `UpdateRecordAsync`: the first record with the argument's id gets the
      argument's twelve other fields and keeps its id and position; nothing
      else changes. Without such a record, nothing changes at all. */
  function Update(s: Store, rec: Record): (out: (Store, Option<Record>))
    ensures out.1.None? <==> rec.id !in Ids(s)
    ensures out.1.None? ==> out.0 == s
    ensures out.1.Some? ==>
      exists i :: IsFirstWithId(s.records, i, rec.id)
        && out.1.value.id == s.records[i].id
        && SameDetails(out.1.value, rec)
        && out.0.records == s.records[i := out.1.value]
    ensures out.1.Some? ==> out.1.value == rec
    ensures out.0.nextId == s.nextId
    ensures Valid(s) ==> Valid(out.0)
  {
    IdsByIndex(s, rec.id);
    match FindIndex(s.records, rec.id)
    case None => (s, None)
    case Some(i) =>
      var updated := Overwrite(s.records[i], rec);
      SameDetailsAndIdIsEqual(updated, rec);
      (s.(records := s.records[i := updated]), Some(updated))
  }

  /** `DeleteRecordAsync`: the first record with the id is removed, the
      others keep their order, and the counter is left alone; reports
      whether anything was removed. */
  function Delete(s: Store, id: int): (out: (Store, bool))
    ensures out.1 <==> id in Ids(s)
    ensures !out.1 ==> out.0 == s
    ensures out.1 ==>
      exists i :: IsFirstWithId(s.records, i, id)
        && out.0.records == s.records[..i] + s.records[i + 1..]
    ensures |out.0.records| == if out.1 then |s.records| - 1 else |s.records|
    ensures out.0.nextId == s.nextId
    ensures Valid(s) ==> Valid(out.0)
  {
    IdsByIndex(s, id);
    match FindIndex(s.records, id)
    case None => (s, false)
    case Some(i) =>
      var s' := s.(records := s.records[..i] + s.records[i + 1..]);
      RemoveAtPreservesValid(s, i);
      (s', true)
  }

  /** Removing one position keeps the invariant. */
  lemma RemoveAtPreservesValid(s: Store, i: nat)
    requires i < |s.records|
    ensures Valid(s) ==> Valid(s.(records := s.records[..i] + s.records[i + 1..]))
  {
    var rest := s.records[..i] + s.records[i + 1..];
    forall k | 0 <= k < |rest|
      ensures rest[k] == s.records[if k < i then k else k + 1]
    {
    }
  }

  // ---------------------------------------------------------------------
  // Construction
  // ---------------------------------------------------------------------

  /** The constructor reads `DateTime.UtcNow` once per date field it sets:
      four times for the first sample, five for the second, three for the
      third. `clock` holds those twelve readings in evaluation order; no
      relation between them is assumed. */
  const ClockReadings: nat := 12

  /** The three sample records of the constructor, before the counter gives
      them their ids. Each takes its own slice of the clock readings. */
  function ProjectAlpha(clock: seq<DateTime>): Record
    requires |clock| == 4
  {
    Record(0, AddDays(clock[0], -5), "Project Alpha",
      Decimal(12550, 2), Decimal(8725, 2), Decimal(20375, 2), Decimal(15600, 2),
      Some(AddDays(clock[1], -30)), Some(AddDays(clock[2], -20)), Some(AddDays(clock[3], -15)), None,
      "Acme Corporation", "John Smith")
  }

  function ProjectBeta(clock: seq<DateTime>): Record
    requires |clock| == 5
  {
    Record(0, AddDays(clock[0], -3), "Project Beta",
      Decimal(9875, 2), Decimal(14530, 2), Decimal(7890, 2), Decimal(23415, 2),
      Some(AddDays(clock[1], -25)), Some(AddDays(clock[2], -18)), Some(AddDays(clock[3], -10)), Some(AddDays(clock[4], -2)),
      "TechCorp Industries", "Sarah Johnson")
  }

  function ProjectGamma(clock: seq<DateTime>): Record
    requires |clock| == 3
  {
    Record(0, AddDays(clock[0], -10), "Project Gamma",
      Decimal(6725, 2), Decimal(18950, 2), Decimal(12375, 2), Decimal(8760, 2),
      Some(AddDays(clock[1], -40)), Some(AddDays(clock[2], -35)), None, None,
      "Global Solutions Ltd", "Mike Davis")
  }

  /** The seeding constructor: an empty list, the counter at 1, and the
      three samples each given `_nextId++` in turn. */
  function Seed(clock: seq<DateTime>): (s: Store)
    requires |clock| == ClockReadings
    ensures Valid(s)
    ensures |s.records| == 3 && s.nextId == 4
    ensures forall k :: 0 <= k < 3 ==> s.records[k].id == k + 1
    ensures SameDetails(s.records[0], ProjectAlpha(clock[..4]))
    ensures SameDetails(s.records[1], ProjectBeta(clock[4..9]))
    ensures SameDetails(s.records[2], ProjectGamma(clock[9..]))
  {
    var s0 := Store([], 1);
    var s1 := Create(s0, ProjectAlpha(clock[..4])).0;
    var s2 := Create(s1, ProjectBeta(clock[4..9])).0;
    Create(s2, ProjectGamma(clock[9..])).0
  }
}
