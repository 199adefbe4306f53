/**
 Any number of requests checking their idempotency keys at once. A check is a read, an insert when it found nothing,
 and a new read when the insert met a duplicate key; each is one atomic Mongo access, and the accesses of different
 requests, completions and failures included, interleave freely. Records are not deleted.
 */
module IdempotencyRuns {
  import opened Basics
  import opened IdempotencyKeys

  type RequestId = nat

  datatype Progress = Reading | Inserting | Answered(result: CheckResult)

  /** One call of checkIdempotencyKey; `retries` counts its duplicate key errors. */
  datatype Check = Check(id: Id, hash: Str, progress: Progress, retries: nat)

  datatype Server = Server(records: Records, checks: map<RequestId, Check>)

  datatype ServerStep =
    | Arrive(q: RequestId, id: Id, hash: Str)
    | ReadRecord(q: RequestId)
    | InsertRecord(q: RequestId)
    | Update(action: Action) // completeIdempotencyKey or failIdempotencyKey

  predicate CanTake(s: Server, step: ServerStep) {
    match step
    case Arrive(q, _, _) => q !in s.checks
    case ReadRecord(q) => q in s.checks && s.checks[q].progress.Reading?
    case InsertRecord(q) => q in s.checks && s.checks[q].progress.Inserting?
    case Update(a) => a.Complete? || a.Fail?
  }

  function ReadNext(rs: Records, c: Check): Check {
    c.(progress := if c.id in rs then Answered(Answer(rs[c.id], c.hash)) else Inserting)
  }

  /** The insert under the unique index; a duplicate key error starts the check over. */
  function InsertNext(rs: Records, c: Check): Check {
    if c.id in rs then c.(progress := Reading, retries := c.retries + 1) else c.(progress := Answered(IsNew))
  }

  function Take(s: Server, step: ServerStep): Server
    requires CanTake(s, step)
  {
    match step
    case Arrive(q, id, hash) => s.(checks := s.checks[q := Check(id, hash, Reading, 0)])
    case ReadRecord(q) => s.(checks := s.checks[q := ReadNext(s.records, s.checks[q])])
    case InsertRecord(q) =>
      var c := s.checks[q];
      Server(Perform(s.records, Create(c.id, c.hash)), s.checks[q := InsertNext(s.records, c)])
    case Update(a) => s.(records := Perform(s.records, a))
  }

  /** A run; a step that cannot be taken at its turn is skipped. */
  function TakeAll(s: Server, steps: seq<ServerStep>): Server {
    if steps == [] then s
    else
      var u := TakeAll(s, steps[..|steps| - 1]);
      if CanTake(u, steps[|steps| - 1]) then Take(u, steps[|steps| - 1]) else u
  }

  // ----- the invariant -----

  /** An answer, judged by the record as it is now. `start` is the collection before the run. */
  predicate AnswerSound(start: Records, rs: Records, c: Check, result: CheckResult) {
    && c.id in rs
    && match result
       case IsNew => c.id !in start && rs[c.id].hash == c.hash
       case Cached(_, _) => Settled(rs[c.id]) && result == Answer(rs[c.id], c.hash)
       case InProgress => rs[c.id].hash == c.hash
       case DifferentBody => rs[c.id].hash != c.hash
       case Fallback => false
  }

  /** A check that met a duplicate key will find the record: it never inserts again. */
  predicate CheckSound(start: Records, rs: Records, c: Check) {
    match c.progress
    case Reading => c.retries == 0 || (c.retries == 1 && c.id in rs)
    case Inserting => c.retries == 0
    case Answered(result) => c.retries <= 1 && AnswerSound(start, rs, c, result)
  }

  predicate NewFor(s: Server, q: RequestId, id: Id) {
    q in s.checks && s.checks[q].id == id && s.checks[q].progress == Answered(IsNew)
  }

  ghost predicate ServerInv(start: Records, s: Server) {
    && KnownStatuses(s.records)
    && (forall q :: q in s.checks ==> CheckSound(start, s.records, s.checks[q]))
    && (forall id, q, r :: NewFor(s, q, id) && NewFor(s, r, id) ==> q == r)
    && (forall id :: id in s.records && id !in start ==> exists q :: NewFor(s, q, id))
  }

  /** Records only come into being, keep their hash, and are frozen once settled. */
  ghost predicate Grows(rs: Records, rs': Records) {
    && KnownStatuses(rs')
    && forall id :: id in rs ==>
         id in rs' && rs'[id].hash == rs[id].hash && (Settled(rs[id]) ==> rs'[id] == rs[id])
  }

  lemma PerformGrows(rs: Records, a: Action)
    requires KnownStatuses(rs)
    ensures Grows(rs, Perform(rs, a))
  {
  }

  lemma SoundStays(start: Records, rs: Records, rs': Records, c: Check)
    requires CheckSound(start, rs, c) && Grows(rs, rs')
    ensures CheckSound(start, rs', c)
  {
  }

  lemma AllSoundStay(start: Records, s: Server, rs': Records)
    requires ServerInv(start, s) && Grows(s.records, rs')
    ensures forall q :: q in s.checks ==> CheckSound(start, rs', s.checks[q])
  {
    forall q | q in s.checks
      ensures CheckSound(start, rs', s.checks[q])
    {
      SoundStays(start, s.records, rs', s.checks[q]);
    }
  }

  /** A step that makes no record: who was answered new stays the same. */
  lemma NewKept(start: Records, s: Server, t: Server)
    requires ServerInv(start, s) && t.records.Keys == s.records.Keys
    requires forall q, id :: NewFor(t, q, id) <==> NewFor(s, q, id)
    ensures forall id, q, r :: NewFor(t, q, id) && NewFor(t, r, id) ==> q == r
    ensures forall id :: id in t.records && id !in start ==> exists q :: NewFor(t, q, id)
  {
    forall id | id in t.records && id !in start
      ensures exists q :: NewFor(t, q, id)
    {
      var q :| NewFor(s, q, id);
      assert NewFor(t, q, id);
    }
  }

  lemma InsertInv(start: Records, s: Server, q: RequestId)
    requires ServerInv(start, s) && CanTake(s, InsertRecord(q)) && s.checks[q].id !in s.records
    requires start.Keys <= s.records.Keys
    ensures ServerInv(start, Take(s, InsertRecord(q)))
  {
    var c, t := s.checks[q], Take(s, InsertRecord(q));
    PerformGrows(s.records, Create(c.id, c.hash));
    AllSoundStay(start, s, t.records);
    forall id, r
      ensures NewFor(t, r, id) <==> NewFor(s, r, id) || (r == q && id == c.id)
      ensures NewFor(s, r, id) ==> id in s.records
    {
      assert r in s.checks ==> CheckSound(start, s.records, s.checks[r]);
    }
    forall id | id in t.records && id !in start
      ensures exists r :: NewFor(t, r, id)
    {
      if id == c.id {
        assert NewFor(t, q, id);
      } else {
        var r :| NewFor(s, r, id);
        assert NewFor(t, r, id);
      }
    }
  }

  lemma ServerStepInv(start: Records, s: Server, step: ServerStep)
    requires ServerInv(start, s) && CanTake(s, step) && start.Keys <= s.records.Keys
    ensures ServerInv(start, Take(s, step)) && start.Keys <= Take(s, step).records.Keys
  {
    var t := Take(s, step);
    if step.InsertRecord? && s.checks[step.q].id !in s.records {
      InsertInv(start, s, step.q);
    } else {
      if step.Update? {
        PerformGrows(s.records, step.action);
      }
      AllSoundStay(start, s, t.records);
      NewKept(start, s, t);
    }
  }

  lemma {:induction false} ServerRunInv(start: Records, steps: seq<ServerStep>)
    requires KnownStatuses(start)
    ensures var t := TakeAll(Server(start, map[]), steps); ServerInv(start, t) && start.Keys <= t.records.Keys
  {
    if steps != [] {
      var n := |steps| - 1;
      ServerRunInv(start, steps[..n]);
      var u := TakeAll(Server(start, map[]), steps[..n]);
      if CanTake(u, steps[n]) {
        ServerStepInv(start, u, steps[n]);
      }
    }
  }

  // ----- over every interleaving -----

  predicate AnsweredFor(s: Server, q: RequestId, id: Id) {
    q in s.checks && s.checks[q].id == id && s.checks[q].progress.Answered?
  }

  /**
   However the checks interleave: as soon as one request with a new key is answered, exactly one has been answered
   `isNew`; and a key that was in use before is answered `isNew` to nobody.
   */
  lemma ExactlyOneNew(start: Records, steps: seq<ServerStep>, id: Id)
    requires KnownStatuses(start)
    ensures var t := TakeAll(Server(start, map[]), steps);
            && (forall q, r :: NewFor(t, q, id) && NewFor(t, r, id) ==> q == r)
            && ((exists q :: NewFor(t, q, id)) <==> id !in start && exists q :: AnsweredFor(t, q, id))
  {
    ServerRunInv(start, steps);
    var t := TakeAll(Server(start, map[]), steps);
    if q :| NewFor(t, q, id) {
      assert CheckSound(start, t.records, t.checks[q]);
      assert AnsweredFor(t, q, id);
    }
    if q :| AnsweredFor(t, q, id) && id !in start {
      assert CheckSound(start, t.records, t.checks[q]);
    }
  }

  predicate Replayed(c: Check) {
    c.progress.Answered? && c.progress.result.Cached?
  }

  /**
   No check falls through to the fallback, and none retries more than once; two requests that are answered from a
   stored response with the same body get the same one.
   */
  lemma AnswersAgree(start: Records, steps: seq<ServerStep>, q: RequestId, r: RequestId)
    requires KnownStatuses(start)
    ensures var t := TakeAll(Server(start, map[]), steps);
            q in t.checks && r in t.checks ==>
              var c, d := t.checks[q], t.checks[r];
              && c.progress != Answered(Fallback) && c.retries <= 1
              && (c.id == d.id && c.hash == d.hash && Replayed(c) && Replayed(d) ==> c.progress == d.progress)
  {
    ServerRunInv(start, steps);
    var t := TakeAll(Server(start, map[]), steps);
    if q in t.checks && r in t.checks {
      assert CheckSound(start, t.records, t.checks[q]);
      assert CheckSound(start, t.records, t.checks[r]);
    }
  }

  /** Next to the one new request, another is refused for its body if and only if its body differs from that one's. */
  lemma RefusedIffDifferent(start: Records, steps: seq<ServerStep>, q: RequestId, r: RequestId, id: Id)
    requires KnownStatuses(start)
    ensures var t := TakeAll(Server(start, map[]), steps);
            NewFor(t, q, id) && AnsweredFor(t, r, id) ==>
              (t.checks[r].progress.result == DifferentBody <==> t.checks[r].hash != t.checks[q].hash)
  {
    ServerRunInv(start, steps);
    var t := TakeAll(Server(start, map[]), steps);
    if NewFor(t, q, id) && AnsweredFor(t, r, id) {
      assert CheckSound(start, t.records, t.checks[q]);
      assert CheckSound(start, t.records, t.checks[r]);
    }
  }

  /** How many accesses of its own a check can still make: the recursion has an end. */
  function StepsLeft(c: Check): nat {
    match c.progress
    case Reading => if c.retries == 0 then 3 else 1
    case Inserting => 2
    case Answered(_) => 0
  }

  /** Each access of a check brings it nearer to its answer, and no access of anyone else takes it back. */
  lemma ChecksEnd(start: Records, steps: seq<ServerStep>, step: ServerStep, q: RequestId)
    requires KnownStatuses(start)
    requires var s := TakeAll(Server(start, map[]), steps); CanTake(s, step) && q in s.checks
    ensures var s := TakeAll(Server(start, map[]), steps);
            var t := Take(s, step);
            && q in t.checks
            && (if step == ReadRecord(q) || step == InsertRecord(q)
                then StepsLeft(t.checks[q]) < StepsLeft(s.checks[q])
                else t.checks[q] == s.checks[q])
            && (StepsLeft(s.checks[q]) > 0 <==> CanTake(s, ReadRecord(q)) || CanTake(s, InsertRecord(q)))
  {
    ServerRunInv(start, steps);
    var s := TakeAll(Server(start, map[]), steps);
    assert CheckSound(start, s.records, s.checks[q]);
  }

  lemma {:induction false} TakeAppend(s: Server, xs: seq<ServerStep>, ys: seq<ServerStep>)
    ensures TakeAll(s, xs + ys) == TakeAll(TakeAll(s, xs), ys)
  {
    if ys == [] {
      assert xs + ys == xs;
    } else {
      var n := |ys| - 1;
      assert (xs + ys)[..|xs + ys| - 1] == xs + ys[..n];
      TakeAppend(s, xs, ys[..n]);
    }
  }

  lemma {:induction false} SettledStays(s: Server, steps: seq<ServerStep>, id: Id)
    requires id in s.records && Settled(s.records[id])
    ensures id in TakeAll(s, steps).records && TakeAll(s, steps).records[id] == s.records[id]
  {
    if steps != [] {
      SettledStays(s, steps[..|steps| - 1], id);
    }
  }

  /** The response that an update stores. */
  function Stored(a: Action): CheckResult
    requires a.Complete? || a.Fail?
  {
    if a.Complete? then Cached(a.status, a.body)
    else Cached(if a.status == 0 then 500 else a.status, FailureBody(a.message))
  }

  /**
   Over every interleaving: once an update has settled a key that was processing, every request with its body that is
   answered from a stored response, then or later, gets exactly what that update stored.
   */
  lemma ReplaysWhatWasStored(
    start: Records, early: seq<ServerStep>, a: Action, late: seq<ServerStep>, q: RequestId)
    requires KnownStatuses(start) && (a.Complete? || a.Fail?)
    requires IsProcessing(TakeAll(Server(start, map[]), early).records, a.id)
    requires var t := TakeAll(Server(start, map[]), early + [Update(a)] + late);
             q in t.checks && t.checks[q].id == a.id && Replayed(t.checks[q])
    ensures var t := TakeAll(Server(start, map[]), early + [Update(a)] + late);
            t.checks[q].progress == Answered(Stored(a))
  {
    var s0 := Server(start, map[]);
    var u := TakeAll(s0, early);
    TakeAppend(s0, early + [Update(a)], late);
    assert (early + [Update(a)])[..|early|] == early;
    var v := TakeAll(s0, early + [Update(a)]);
    assert v.records == Perform(u.records, a);
    SettledStays(v, late, a.id);
    ServerRunInv(start, early + [Update(a)] + late);
    var t := TakeAll(s0, early + [Update(a)] + late);
    assert CheckSound(start, t.records, t.checks[q]);
    StoredIsReplayed(u.records, a.id, a, []);
  }

  /** And a request with that body that reads after the update is answered at once. */
  lemma ReadsWhatWasStored(
    start: Records, early: seq<ServerStep>, a: Action, late: seq<ServerStep>, q: RequestId)
    requires KnownStatuses(start) && (a.Complete? || a.Fail?)
    requires IsProcessing(TakeAll(Server(start, map[]), early).records, a.id)
    requires var t := TakeAll(Server(start, map[]), early + [Update(a)] + late);
             && CanTake(t, ReadRecord(q)) && t.checks[q].id == a.id
             && t.checks[q].hash == TakeAll(Server(start, map[]), early).records[a.id].hash
    ensures var t := TakeAll(Server(start, map[]), early + [Update(a)] + late);
            Take(t, ReadRecord(q)).checks[q].progress == Answered(Stored(a))
  {
    var s0 := Server(start, map[]);
    var u := TakeAll(s0, early);
    TakeAppend(s0, early + [Update(a)], late);
    assert (early + [Update(a)])[..|early|] == early;
    SettledStays(TakeAll(s0, early + [Update(a)]), late, a.id);
    StoredIsReplayed(u.records, a.id, a, []);
  }
}
