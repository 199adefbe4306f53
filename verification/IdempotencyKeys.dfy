/**
 Idempotency keys: one record per (key, user) under a unique index, created by the first check, moved on by
 updates that are guarded on status `processing`. Requests interleave at the granularity of single Mongo
 accesses; records are not deleted.
 */
module IdempotencyKeys {
  import opened Basics

  /** Response bodies: none, a bare message, a stored failure, or what the request produced. */
  datatype Body = EmptyBody | MessageBody(message: Str) | FailureBody(message: Str) | Produced(json: Str)

  /** Key and user, the fields of the unique index. */
  datatype Id = Id(key: Str, user: Str)

  const PROCESSING: Str := [112, 114, 111, 99, 101, 115, 115, 105, 110, 103]
  const COMPLETED: Str := [99, 111, 109, 112, 108, 101, 116, 101, 100]
  const FAILED: Str := [102, 97, 105, 108, 101, 100]
  const REQUEST_FAILED: Str := [82, 101, 113, 117, 101, 115, 116, 32, 102, 97, 105, 108, 101, 100]

  /** The status is a plain string in the collection. */
  datatype KeyRecord = KeyRecord(
    hash: Str, status: Str, responseStatus: Option<int>, responseBody: Option<Body>, errorMessage: Option<Str>)

  type Records = map<Id, KeyRecord>

  datatype CheckResult =
    | IsNew
    | Cached(status: int, body: Body)
    | InProgress
    | DifferentBody
    | Fallback

  /** The atomic accesses that change the collection. */
  datatype Action =
    | Create(id: Id, hash: Str)
    | Complete(id: Id, status: int, body: Body)
    | Fail(id: Id, message: Str, status: int)

  function FreshRecord(hash: Str): KeyRecord {
    KeyRecord(hash, PROCESSING, None, None, None)
  }

  predicate IsProcessing(rs: Records, id: Id) {
    id in rs && rs[id].status == PROCESSING
  }

  function Perform(rs: Records, a: Action): Records {
    match a
    case Create(id, hash) => if id in rs then rs else rs[id := FreshRecord(hash)]
    case Complete(id, status, body) =>
      if IsProcessing(rs, id)
      then rs[id := rs[id].(status := COMPLETED, responseStatus := Some(status), responseBody := Some(body))]
      else rs
    case Fail(id, message, status) =>
      if IsProcessing(rs, id)
      then rs[id := rs[id].(status := FAILED, responseStatus := Some(status),
                            responseBody := Some(FailureBody(message)), errorMessage := Some(message))]
      else rs
  }

  function PerformAll(rs: Records, actions: seq<Action>): Records {
    if actions == [] then rs else Perform(PerformAll(rs, actions[..|actions| - 1]), actions[|actions| - 1])
  }

  /** What a check answers for a record it found: the tests in the source's order. */
  function Answer(r: KeyRecord, hash: Str): CheckResult {
    if r.hash != hash then DifferentBody
    else if r.status == COMPLETED then
      Cached(if r.responseStatus.Some? then r.responseStatus.value else 200,
             if r.responseBody.Some? then r.responseBody.value else EmptyBody)
    else if r.status == PROCESSING then InProgress
    else if r.status == FAILED then
      Cached(if r.responseStatus.Some? && r.responseStatus.value != 0 then r.responseStatus.value else 500,
             if r.responseBody.Some? then r.responseBody.value
             else MessageBody(if r.errorMessage.Some? && r.errorMessage.value != [] then r.errorMessage.value
                              else REQUEST_FAILED))
    else Fallback
  }

  /** The statuses that the service writes. */
  predicate KnownStatuses(rs: Records) {
    forall id :: id in rs ==> rs[id].status == PROCESSING || rs[id].status == COMPLETED || rs[id].status == FAILED
  }

  class IdempotencyService {
    var records: Records

    /** Insert under the unique index; false is Mongo's duplicate key error. */
    method CreateRecord(id: Id, hash: Str) returns (created: bool)
      modifies this
      ensures records == Perform(old(records), Create(id, hash))
      ensures created <==> id !in old(records)
    {
      created := id !in records;
      if created {
        records := records[id := FreshRecord(hash)];
      }
    }

    method CompleteIdempotencyKey(id: Id, status: int, body: Body)
      modifies this
      ensures records == Perform(old(records), Complete(id, status, body))
    {
      if id in records && records[id].status == PROCESSING {
        records := records[id := records[id].(
          status := COMPLETED, responseStatus := Some(status), responseBody := Some(body))];
      }
    }

    method FailIdempotencyKey(id: Id, message: Str, status: int)
      modifies this
      ensures records == Perform(old(records), Fail(id, message, status))
    {
      if id in records && records[id].status == PROCESSING {
        records := records[id := records[id].(
          status := FAILED, responseStatus := Some(status), responseBody := Some(FailureBody(message)),
          errorMessage := Some(message))];
      }
    }

    /** Accesses of other requests, whenever they may come. */
    method Others(actions: seq<Action>)
      modifies this
      ensures records == PerformAll(old(records), actions)
    {
      for i := 0 to |actions|
        invariant records == PerformAll(old(records), actions[..i])
      {
        assert actions[..i + 1][..i] == actions[..i];
        match actions[i]
        case Create(id, hash) =>
          var _ := CreateRecord(id, hash);
        case Complete(id, status, body) =>
          CompleteIdempotencyKey(id, status, body);
        case Fail(id, message, status) =>
          FailIdempotencyKey(id, message, status);
      }
      assert actions[..|actions|] == actions;
    }

    /**
     `checkIdempotencyKey`. Between its own read and its insert any accesses `meanwhile` of others may come, and
     any accesses `later` between a duplicate key error and the retry. The recursion ends because the record
     that caused the error is never removed.
     */
    method CheckIdempotencyKey(id: Id, hash: Str, meanwhile: seq<Action>, later: seq<Action>) returns (r: CheckResult)
      requires KnownStatuses(records)
      modifies this
      ensures records == PerformAll(old(records), CheckActions(old(records), id, hash, meanwhile, later))
      ensures r.IsNew? <==> id !in old(records) && id !in PerformAll(old(records), meanwhile)
      ensures id in records && (if r.IsNew? then records[id] == FreshRecord(hash) else r == Answer(records[id], hash))
      ensures r != Fallback && KnownStatuses(records)
      decreases id !in records
    {
      if id in records {
        return Answer(records[id], hash);
      }
      StatusesKept(records, meanwhile);
      Others(meanwhile);
      ghost var before := records;
      PerformOneMore(old(records), meanwhile, Create(id, hash));
      var created := CreateRecord(id, hash);
      if created {
        return IsNew;
      }
      StatusesKept(before, later);
      RecordStays(before, later, id);
      Others(later);
      PerformJoin(old(records), meanwhile + [Create(id, hash)], later);
      r := CheckIdempotencyKey(id, hash, [], []);
    }
  }

  /** The accesses of one check, with those of others in between, in the order they reach the collection. */
  function CheckActions(rs: Records, id: Id, hash: Str, meanwhile: seq<Action>, later: seq<Action>): seq<Action> {
    if id in rs then []
    else if id in PerformAll(rs, meanwhile) then meanwhile + [Create(id, hash)] + later
    else meanwhile + [Create(id, hash)]
  }

  lemma PerformOneMore(rs: Records, actions: seq<Action>, a: Action)
    ensures PerformAll(rs, actions + [a]) == Perform(PerformAll(rs, actions), a)
  {
    assert (actions + [a])[..|actions|] == actions;
  }

  lemma {:induction false} PerformJoin(rs: Records, xs: seq<Action>, ys: seq<Action>)
    ensures PerformAll(rs, xs + ys) == PerformAll(PerformAll(rs, xs), ys)
  {
    if ys == [] {
      assert xs + ys == xs;
    } else {
      var n := |ys| - 1;
      assert (xs + ys)[..|xs + ys| - 1] == xs + ys[..n];
      PerformJoin(rs, xs, ys[..n]);
    }
  }

  lemma {:induction false} StatusesKept(rs: Records, actions: seq<Action>)
    requires KnownStatuses(rs)
    ensures KnownStatuses(PerformAll(rs, actions))
  {
    if actions != [] {
      StatusesKept(rs, actions[..|actions| - 1]);
    }
  }

  lemma {:induction false} RecordStays(rs: Records, actions: seq<Action>, id: Id)
    requires id in rs
    ensures id in PerformAll(rs, actions) && PerformAll(rs, actions)[id].hash == rs[id].hash
  {
    if actions != [] {
      RecordStays(rs, actions[..|actions| - 1], id);
    }
  }

  // ----- over every interleaving -----

  /** The `i`-th access is an insert for `id`, and it succeeds. */
  predicate CreatesAt(rs: Records, actions: seq<Action>, i: nat, id: Id)
    requires i < |actions|
  {
    actions[i].Create? && actions[i].id == id && id !in PerformAll(rs, actions[..i])
  }

  /** The unique index over runs: at most one insert for a (key, user) succeeds. The answers are in IdempotencyRuns. */
  lemma AtMostOneInsert(rs: Records, actions: seq<Action>, id: Id, i: nat, j: nat)
    requires i < |actions| && j < |actions| && CreatesAt(rs, actions, i, id) && CreatesAt(rs, actions, j, id)
    ensures i == j
  {
    if i < j {
      CreatedOnce(rs, actions, id, i, j);
      assert false;
    } else if j < i {
      CreatedOnce(rs, actions, id, j, i);
      assert false;
    }
  }

  lemma CreatedOnce(rs: Records, actions: seq<Action>, id: Id, i: nat, j: nat)
    requires i < j < |actions| && CreatesAt(rs, actions, i, id)
    ensures id in PerformAll(rs, actions[..j])
  {
    assert actions[..j] == actions[..i + 1] + actions[i + 1..j];
    assert actions[..i + 1][..i] == actions[..i];
    PerformJoin(rs, actions[..i + 1], actions[i + 1..j]);
    RecordStays(PerformAll(rs, actions[..i + 1]), actions[i + 1..j], id);
  }

  /** The record exists at the end exactly when it did at the start or one insert succeeded. */
  lemma {:induction false} CreatedIff(rs: Records, actions: seq<Action>, id: Id)
    ensures id in PerformAll(rs, actions) <==>
            id in rs || exists i :: 0 <= i < |actions| && CreatesAt(rs, actions, i, id)
  {
    if actions != [] {
      var n := |actions| - 1;
      var p := actions[..n];
      CreatedIff(rs, p, id);
      forall i | 0 <= i < n
        ensures CreatesAt(rs, p, i, id) == CreatesAt(rs, actions, i, id)
      {
        assert p[..i] == actions[..i];
      }
      if id in PerformAll(rs, actions) && id !in PerformAll(rs, p) {
        assert CreatesAt(rs, actions, n, id);
      }
      if i :| 0 <= i < |actions| && CreatesAt(rs, actions, i, id) {
        assert i == n || CreatesAt(rs, p, i, id);
      }
    }
  }

  predicate Settled(r: KeyRecord) {
    r.status == COMPLETED || r.status == FAILED
  }

  /**
   Once completed or failed a record is frozen: after any further accesses a check with the same body gets the
   same stored response, and a check with another body is refused.
   */
  lemma {:induction false} ReplaysAgree(rs: Records, actions: seq<Action>, id: Id, hash: Str)
    requires id in rs && Settled(rs[id])
    ensures var after := PerformAll(rs, actions);
            && id in after && after[id] == rs[id]
            && Answer(after[id], hash) == Answer(rs[id], hash)
            && (Answer(after[id], hash).Cached? <==> hash == rs[id].hash)
            && (hash != rs[id].hash ==> Answer(after[id], hash) == DifferentBody)
  {
    if actions != [] {
      ReplaysAgree(rs, actions[..|actions| - 1], id, hash);
    }
  }

  /** The first of the competing completions and failures decides the response; the losers change nothing. */
  lemma FirstSettles(rs: Records, id: Id, a: Action, rest: seq<Action>)
    requires IsProcessing(rs, id)
    requires (a.Complete? || a.Fail?) && a.id == id
    ensures var after := PerformAll(Perform(rs, a), rest);
            && id in after && Settled(after[id])
            && after[id].responseStatus == Some(a.status)
            && after[id].responseBody == Some(if a.Complete? then a.body else FailureBody(a.message))
  {
    ReplaysAgree(Perform(rs, a), rest, id, rs[id].hash);
  }

  /** What a replay gets: the action's own response, whatever accesses came after it. */
  lemma StoredIsReplayed(rs: Records, id: Id, a: Action, rest: seq<Action>)
    requires IsProcessing(rs, id) && (a.Complete? || a.Fail?) && a.id == id
    ensures var r := PerformAll(Perform(rs, a), rest);
            && id in r
            && (a.Complete? ==> Answer(r[id], rs[id].hash) == Cached(a.status, a.body))
            && (a.Fail? && a.status != 0 ==> Answer(r[id], rs[id].hash) == Cached(a.status, FailureBody(a.message)))
            && (a.Fail? && a.status == 0 ==> Answer(r[id], rs[id].hash) == Cached(500, FailureBody(a.message)))
            && forall hash :: hash != rs[id].hash ==> Answer(r[id], hash) == DifferentBody
  {
    ReplaysAgree(Perform(rs, a), rest, id, rs[id].hash);
    forall hash | hash != rs[id].hash
      ensures Answer(PerformAll(Perform(rs, a), rest)[id], hash) == DifferentBody
    {
      ReplaysAgree(Perform(rs, a), rest, id, hash);
    }
  }

  /** Until then the same body is told to wait; a record nobody settled keeps its status. */
  lemma {:induction false} WaitsUntilSettled(rs: Records, id: Id, actions: seq<Action>)
    requires IsProcessing(rs, id)
    requires forall i :: 0 <= i < |actions| ==> actions[i].Create? || actions[i].id != id
    ensures var r := PerformAll(rs, actions);
            id in r && r[id] == rs[id] && Answer(r[id], rs[id].hash) == InProgress
  {
    if actions != [] {
      WaitsUntilSettled(rs, id, actions[..|actions| - 1]);
    }
  }

  /** A record without a stored response, which the service does not write, is answered by the defaults. */
  lemma DefaultAnswers(r: KeyRecord)
    ensures r.status == COMPLETED && r.responseStatus == None && r.responseBody == None ==>
              Answer(r, r.hash) == Cached(200, EmptyBody)
    ensures r.status == FAILED && r.responseStatus == None && r.responseBody == None && r.errorMessage == None ==>
              Answer(r, r.hash) == Cached(500, MessageBody(REQUEST_FAILED))
  {
  }
}
