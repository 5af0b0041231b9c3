/** Sequential histories of store operations: the invariant holds along any
    history, assigned ids strictly increase and are never handed out twice,
    and the list length is the number of creates minus the number of
    successful deletes. */
module History {
  import opened Wrappers
  import opened Models
  import opened RecordService

  /** One call on the store's interface. */
  datatype Op =
    | ListAll
    | GetOne(id: int)
    | Add(record: Record)
    | Replace(record: Record)
    | Remove(id: int)

  /** What the call returned. */
  datatype Reply =
    | Listed(records: seq<Record>)
    | Got(found: Option<Record>)
    | Added(created: Record)
    | Replaced(updated: Option<Record>)
    | Removed(deleted: bool)

  /** One call: the state after it and its reply. */
  function Apply(s: Store, op: Op): (out: (Store, Reply))
    ensures op.ListAll? || op.GetOne? ==> out.0 == s
    ensures out.0.nextId == if op.Add? then s.nextId + 1 else s.nextId
    ensures out.1.Added? <==> op.Add?
    ensures out.1.Added? ==> out.1.created.id == s.nextId
    ensures out.1.Added? ==> out.0.records == s.records + [out.1.created]
    ensures Valid(s) ==> Valid(out.0)
  {
    match op
    case ListAll => (s, Listed(GetAll(s)))
    case GetOne(id) => (s, Got(GetById(s, id)))
    case Add(r) => var (s', c) := Create(s, r); (s', Added(c))
    case Replace(r) => var (s', u) := Update(s, r); (s', Replaced(u))
    case Remove(id) => var (s', d) := Delete(s, id); (s', Removed(d))
  }

  /** Calls in order: the final state and the replies, one per call. */
  function Run(s: Store, ops: seq<Op>): (out: (Store, seq<Reply>))
    ensures |out.1| == |ops|
    decreases |ops|
  {
    if |ops| == 0 then (s, [])
    else
      var (s1, reply) := Apply(s, ops[0]);
      var (s2, replies) := Run(s1, ops[1..]);
      (s2, [reply] + replies)
  }

  /** The ids create assigned, in call order. */
  function CreatedIds(replies: seq<Reply>): seq<int>
  {
    if |replies| == 0 then []
    else (if replies[0].Added? then [replies[0].created.id] else []) + CreatedIds(replies[1..])
  }

  /** The records create returned, in call order. */
  function CreatedRecords(replies: seq<Reply>): seq<Record>
  {
    if |replies| == 0 then []
    else (if replies[0].Added? then [replies[0].created] else []) + CreatedRecords(replies[1..])
  }

  /** Number of creates in a history. */
  function CountCreated(replies: seq<Reply>): nat
  {
    if |replies| == 0 then 0
    else (if replies[0].Added? then 1 else 0) + CountCreated(replies[1..])
  }

  /** Number of deletes that reported true. */
  function CountDeleted(replies: seq<Reply>): nat
  {
    if |replies| == 0 then 0
    else (if replies[0] == Removed(true) then 1 else 0) + CountDeleted(replies[1..])
  }

  predicate StrictlyIncreasing(xs: seq<int>)
  {
    forall i, j :: 0 <= i < j < |xs| ==> xs[i] < xs[j]
  }

  /** The invariant holds after any history that starts from it. */
  lemma {:induction false} RunPreservesValid(s: Store, ops: seq<Op>)
    requires Valid(s)
    ensures Valid(Run(s, ops).0)
    decreases |ops|
  {
    if |ops| > 0 {
      RunPreservesValid(Apply(s, ops[0]).0, ops[1..]);
    }
  }

  /** The counter never goes down, and goes up by one per create. */
  lemma {:induction false} CounterCountsCreates(s: Store, ops: seq<Op>)
    ensures Run(s, ops).0.nextId == s.nextId + CountCreated(Run(s, ops).1)
    decreases |ops|
  {
    if |ops| > 0 {
      var (s1, reply) := Apply(s, ops[0]);
      CounterCountsCreates(s1, ops[1..]);
      assert Run(s, ops).1[1..] == Run(s1, ops[1..]).1;
    }
  }

  /** Every element of `xs` lies in [lo, hi). */
  predicate AllWithin(xs: seq<int>, lo: int, hi: int)
  {
    forall k :: 0 <= k < |xs| ==> lo <= xs[k] < hi
  }

  /** The created ids of a history are those of its first reply followed
      by those of the rest. */
  lemma CreatedIdsCons(reply: Reply, rest: seq<Reply>)
    ensures CreatedIds([reply] + rest)
      == (if reply.Added? then [reply.created.id] else []) + CreatedIds(rest)
  {
    assert ([reply] + rest)[1..] == rest;
  }

  /** Putting a value below a range in front of an increasing run within
      that range gives an increasing run. */
  lemma PrependBelow(x: int, xs: seq<int>, hi: int)
    requires StrictlyIncreasing(xs) && AllWithin(xs, x + 1, hi) && x < hi
    ensures StrictlyIncreasing([x] + xs) && AllWithin([x] + xs, x, hi)
  {
    var ys := [x] + xs;
    forall i, j | 0 <= i < j < |ys|
      ensures ys[i] < ys[j]
    {
      assert ys[j] == xs[j - 1];
      if i > 0 {
        assert ys[i] == xs[i - 1];
      }
    }
  }

  /** Ids handed out by create strictly increase along a history, start at
      the counter's value and stay below its final value, so an id is never
      handed out twice, whatever was deleted in between. */
  lemma {:induction false} CreatedIdsIncrease(s: Store, ops: seq<Op>)
    ensures StrictlyIncreasing(CreatedIds(Run(s, ops).1))
    ensures AllWithin(CreatedIds(Run(s, ops).1), s.nextId, Run(s, ops).0.nextId)
    decreases |ops|
  {
    if |ops| > 0 {
      var (s1, reply) := Apply(s, ops[0]);
      var (s2, rest) := Run(s1, ops[1..]);
      var ids := CreatedIds(rest);
      CreatedIdsIncrease(s1, ops[1..]);
      CounterCountsCreates(s1, ops[1..]);
      assert Run(s, ops) == (s2, [reply] + rest);
      CreatedIdsCons(reply, rest);
      if reply.Added? {
        PrependBelow(s.nextId, ids, s2.nextId);
      } else {
        assert AllWithin(ids, s.nextId, s2.nextId);
      }
    }
  }

  /** An id removed by a delete is never assigned again by a later create. */
  lemma DeletedIdNeverReassigned(s: Store, id: int, ops: seq<Op>)
    requires Valid(s) && id in Ids(s)
    ensures id !in CreatedIds(Run(Delete(s, id).0, ops).1)
  {
    IdsByIndex(s, id);
    CreatedIdsIncrease(Delete(s, id).0, ops);
  }

  /** The list length is the starting length plus the creates minus the
      deletes that reported true. */
  lemma {:induction false} LengthAccounting(s: Store, ops: seq<Op>)
    ensures var (s', replies) := Run(s, ops);
      |s'.records| + CountDeleted(replies) == |s.records| + CountCreated(replies)
    decreases |ops|
  {
    if |ops| > 0 {
      var (s1, reply) := Apply(s, ops[0]);
      LengthAccounting(s1, ops[1..]);
      assert Run(s, ops).1[1..] == Run(s1, ops[1..]).1;
      match ops[0]
      case Replace(r) =>
        assert |s1.records| == |s.records|;
      case _ =>
    }
  }

  /** In a history of creates only, every reply is a created record, and
      the list is the old list followed by the created records in call
      order. */
  lemma {:induction false} ListKeepsCreationOrder(s: Store, ops: seq<Op>)
    requires forall k :: 0 <= k < |ops| ==> ops[k].Add?
    ensures forall k :: 0 <= k < |ops| ==> Run(s, ops).1[k].Added?
    ensures |CreatedRecords(Run(s, ops).1)| == |ops|
    ensures Run(s, ops).0.records == s.records + CreatedRecords(Run(s, ops).1)
    decreases |ops|
  {
    if |ops| > 0 {
      var (s1, reply) := Apply(s, ops[0]);
      ListKeepsCreationOrder(s1, ops[1..]);
      var (s2, rest) := Run(s1, ops[1..]);
      var replies := [reply] + rest;
      assert Run(s, ops) == (s2, replies);
      assert replies[1..] == rest;
      assert CreatedRecords(replies) == [reply.created] + CreatedRecords(rest);
      forall k | 0 <= k < |ops|
        ensures replies[k].Added?
      {
        if k > 0 {
          assert replies[k] == rest[k - 1];
        }
      }
      assert s2.records == (s.records + [reply.created]) + CreatedRecords(rest);
    }
  }
}
