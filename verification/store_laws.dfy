/** Properties relating several store operations: what a lookup sees after
    each mutation, and which lookups a mutation leaves alone. */
module StoreLaws {
  import opened Wrappers
  import opened Models
  import opened RecordService

  /** Under the invariant the first match is the only match: a lookup finds
      `x` exactly when `x` is a stored record carrying the id. */
  lemma GetByIdUnique(s: Store, id: int, x: Record)
    requires Valid(s)
    ensures GetById(s, id) == Some(x) <==> x in s.records && x.id == id
  {
    if x in s.records && x.id == id {
      var k :| 0 <= k < |s.records| && s.records[k] == x;
      var r := GetById(s, id);
      assert r.Some?;
      var i :| IsFirstWithId(s.records, i, id) && r.value == s.records[i];
      assert i == k;
    }
  }

  /** A created record can be looked up under its new id and comes back
      equal to what create returned. */
  lemma GetAfterCreate(s: Store, rec: Record)
    requires Valid(s)
    ensures var (s', created) := Create(s, rec); GetById(s', created.id) == Some(created)
  {
    var (s', created) := Create(s, rec);
    GetByIdUnique(s', created.id, created);
  }

  /** Two lists with the same id at every position have their first match
      for any id at the same position. */
  lemma SameIdsSameIndex(a: seq<Record>, b: seq<Record>, id: int)
    requires |a| == |b|
    requires forall k :: 0 <= k < |a| ==> a[k].id == b[k].id
    ensures FindIndex(a, id) == FindIndex(b, id)
  {
    var fa := FindIndex(a, id);
    if fa.Some? {
      assert IsFirstWithId(b, fa.value, id);
    } else {
      assert forall k :: 0 <= k < |b| ==> b[k].id != id;
    }
  }

  /** Create changes no lookup but the one of the id it assigns. */
  lemma CreateFrame(s: Store, rec: Record, id: int)
    requires id != s.nextId
    ensures GetById(Create(s, rec).0, id) == GetById(s, id)
  {
    var (s', created) := Create(s, rec);
    var f := FindIndex(s.records, id);
    if f.Some? {
      assert IsFirstWithId(s'.records, f.value, id);
    } else {
      assert forall k :: 0 <= k < |s'.records| ==> s'.records[k].id != id;
    }
  }

  /** After a successful update the id looks up exactly the argument. */
  lemma GetAfterUpdate(s: Store, rec: Record)
    requires rec.id in Ids(s)
    ensures GetById(Update(s, rec).0, rec.id) == Some(rec)
  {
    var (s', u) := Update(s, rec);
    var i :| IsFirstWithId(s.records, i, rec.id) && s'.records == s.records[i := u.value];
    assert IsFirstWithId(s'.records, i, rec.id);
    var r := GetById(s', rec.id);
    var i' :| IsFirstWithId(s'.records, i', rec.id) && r.value == s'.records[i'];
    assert i == i';
  }

  /** Update changes no lookup of any other id. */
  lemma UpdateFrame(s: Store, rec: Record, id: int)
    requires id != rec.id
    ensures GetById(Update(s, rec).0, id) == GetById(s, id)
  {
    var (s', u) := Update(s, rec);
    if u.Some? {
      var i :| IsFirstWithId(s.records, i, rec.id) && s'.records == s.records[i := u.value];
      SameIdsSameIndex(s.records, s'.records, id);
    }
  }

  /** The records left by removing position `i` are those at every other
      position. */
  lemma RemoveAtMembers(rs: seq<Record>, i: nat, x: Record)
    requires i < |rs|
    ensures x in rs[..i] + rs[i + 1..] <==> exists k :: 0 <= k < |rs| && k != i && rs[k] == x
  {
    var rest := rs[..i] + rs[i + 1..];
    if x in rest {
      var k :| 0 <= k < |rest| && rest[k] == x;
      var m := if k < i then k else k + 1;
      assert rs[m] == x;
    }
    if exists k :: 0 <= k < |rs| && k != i && rs[k] == x {
      var k :| 0 <= k < |rs| && k != i && rs[k] == x;
      if k < i {
        assert rest[k] == x;
      } else {
        assert rest[k - 1] == x;
      }
    }
  }

  /** After a delete the id is gone, and exactly that id is gone. */
  lemma DeleteRemovesId(s: Store, id: int)
    requires Valid(s)
    ensures GetById(Delete(s, id).0, id) == None
    ensures Ids(Delete(s, id).0) == Ids(s) - {id}
  {
    var (s', ok) := Delete(s, id);
    if ok {
      var i := FindIndex(s.records, id).value;
      assert s'.records == s.records[..i] + s.records[i + 1..];
      forall x | x in s'.records
        ensures x in s.records && x.id != id
      {
        RemoveAtMembers(s.records, i, x);
      }
      forall x | x in s.records && x.id != id
        ensures x in s'.records
      {
        RemoveAtMembers(s.records, i, x);
      }
    }
  }

  /** Delete changes no lookup of any other id. */
  lemma DeleteFrame(s: Store, id: int, other: int)
    requires Valid(s)
    requires other != id
    ensures GetById(Delete(s, id).0, other) == GetById(s, other)
  {
    var s' := Delete(s, id).0;
    DeleteRemovesId(s, id);
    var before, after := GetById(s, other), GetById(s', other);
    if before.Some? {
      GetByIdUnique(s, other, before.value);
      assert before.value.id in Ids(s);
      assert before.value.id in Ids(s');
      var x :| x in s'.records && x.id == other;
      GetByIdUnique(s', other, x);
      assert x in s.records;
      GetByIdUnique(s, other, x);
    }
  }

  /** Removing position `i` takes one copy of `rs[i]` out of the list's
      multiset. */
  lemma RemoveAtMultiset(rs: seq<Record>, i: nat)
    requires i < |rs|
    ensures multiset(rs[..i] + rs[i + 1..]) + multiset{rs[i]} == multiset(rs)
  {
    assert rs == rs[..i] + [rs[i]] + rs[i + 1..];
  }

  /** Delete takes away exactly one copy of the record the id looked up
      and keeps every other record. */
  lemma DeleteRemovesOneRecord(s: Store, id: int)
    requires id in Ids(s)
    ensures GetById(s, id).Some?
    ensures multiset(Delete(s, id).0.records) + multiset{GetById(s, id).value} == multiset(s.records)
  {
    var i := FindIndex(s.records, id).value;
    RemoveAtMultiset(s.records, i);
  }
}
