/**
 Runs of scripts on one showtime. Redis executes each script atomically, so a run is a list of
 script calls in any order, by any bookings, at any times; nothing is assumed of the clock unless a
 lemma says so.
 */
module SeatRuns {
  import opened Basics
  import opened SeatModel
  import opened ScriptReplies

  datatype Op =
    | Reserve(b: BookingId, expire: int, reqs: seq<Request>)
    | ReserveOne(b: BookingId, expire: int, request: Request)
    | Confirm(b: BookingId, ids: seq<SeatId>)
    | Release(b: BookingId, ids: seq<SeatId>)
    | Extend(b: BookingId, ids: seq<SeatId>, extra: int)
    | Cleanup
    | Read(ids: seq<SeatId>)

  datatype Event = Event(now: int, op: Op)

  /** The seats a status read looks at: all of them when none are named. */
  function ReadScope(s: Store, ids: seq<SeatId>): set<SeatId> {
    if ids == [] then s.seats.Keys else Elems(ids)
  }

  function Apply(s: Store, e: Event): Store {
    match e.op
    case Reserve(b, expire, reqs) => ReserveStore(s, b, expire, reqs, e.now)
    case ReserveOne(b, expire, r) => ReserveOneStore(s, b, expire, r, e.now)
    case Confirm(b, ids) => ConfirmStore(s, b, ids, e.now)
    case Release(b, ids) => ReleaseStore(s, b, ids)
    case Extend(b, ids, extra) => ExtendStore(s, b, ids, extra, e.now)
    case Cleanup => CleanupStore(s, e.now)
    case Read(ids) => CleanStore(s, ReadScope(s, ids), e.now)
  }

  function Run(s: Store, es: seq<Event>): Store {
    if es == [] then s else Apply(Run(s, es[..|es| - 1]), es[|es| - 1])
  }

  /** The state before event `i`, and the step that event takes. */
  lemma RunStep(s: Store, es: seq<Event>, i: nat)
    requires i < |es|
    ensures Run(s, es[..i + 1]) == Apply(Run(s, es[..i]), es[i])
  {
    assert es[..i + 1][..i] == es[..i];
  }

  lemma {:induction false} RunAppend(s: Store, es: seq<Event>, fs: seq<Event>)
    ensures Run(s, es + fs) == Run(Run(s, es), fs)
  {
    if fs == [] {
      assert es + fs == es;
    } else {
      var n := |fs| - 1;
      assert (es + fs)[..|es + fs| - 1] == es + fs[..n];
      RunAppend(s, es, fs[..n]);
    }
  }

  // ----- one event, one seat -----

  predicate Owns(s: Store, b: BookingId, k: SeatId) {
    k in s.seats && OwnedBy(s.seats[k], b)
  }

  predicate ReservesFor(e: Event, b: BookingId) {
    (e.op.Reserve? || e.op.ReserveOne?) && e.op.b == b
  }

  /** The event is a reserve of seat `k` for `b`, and it is granted. */
  predicate Grants(s: Store, e: Event, b: BookingId, k: SeatId) {
    match e.op
    case Reserve(c, expire, reqs) => c == b && k in Ids(reqs) && ReserveOutcome(s, c, expire, reqs, e.now).Reserved?
    case ReserveOne(c, _, r) => c == b && k == r.id && ReserveOneOutcome(s, r, e.now).SingleReserved?
    case _ => false
  }

  /** The event is a confirm by `b` that turns seat `k` into a booked one. */
  predicate Confirms(s: Store, e: Event, b: BookingId, k: SeatId) {
    && e.op.Confirm? && e.op.b == b && b != []
    && k in s.seats && k in e.op.ids && Confirmable(s.seats[k], b, e.now)
  }

  predicate Releases(e: Event, b: BookingId, k: SeatId) {
    e.op.Release? && e.op.b == b && b != [] && k in e.op.ids
  }

  /** No script adds or removes a field of the hash. */
  lemma FieldsKept(s: Store, e: Event)
    ensures Apply(s, e).seats.Keys == s.seats.Keys
  {
  }

  lemma GrantedWasFree(s: Store, e: Event, b: BookingId, k: SeatId)
    requires Grants(s, e, b, k)
    ensures k in s.seats && Free(s.seats[k], e.now)
    ensures Owns(Apply(s, e), b, k)
  {
    if e.op.Reserve? {
      ReserveGranted(s, b, e.op.expire, e.op.reqs, e.now);
    }
  }

  /** Ownership of a seat is gained only through a granted reserve. */
  lemma GainsByGrant(s: Store, e: Event, b: BookingId, k: SeatId)
    ensures Owns(Apply(s, e), b, k) && !Owns(s, b, k) ==> Grants(s, e, b, k)
  {
  }

  /** A booked seat changes only when its owner releases it. */
  lemma BookedKept(s: Store, e: Event, b: BookingId, k: SeatId)
    requires BookedBy(s, b, k) && !Releases(e, b, k)
    ensures BookedBy(Apply(s, e), b, k) && Apply(s, e).seats[k] == s.seats[k]
  {
    if e.op.Reserve? {
      ReserveGranted(s, e.op.b, e.op.expire, e.op.reqs, e.now);
    }
  }

  // ----- no double sale -----

  /** The part of a run between two of its states is a run of its own. */
  lemma RunPart(s: Store, es: seq<Event>, i: nat, j: nat)
    requires i <= j <= |es|
    ensures Run(s, es[..j]) == Run(Run(s, es[..i]), es[i..j])
  {
    assert es[..j] == es[..i] + es[i..j];
    RunAppend(s, es[..i], es[i..j]);
  }

  lemma {:induction false} NoReserveNoGain(s: Store, es: seq<Event>, b: BookingId, k: SeatId)
    requires forall i :: 0 <= i < |es| ==> !ReservesFor(es[i], b)
    requires Owns(Run(s, es), b, k)
    ensures Owns(s, b, k)
  {
    if es != [] {
      var n := |es| - 1;
      GainsByGrant(Run(s, es[..n]), es[n], b, k);
      NoReserveNoGain(s, es[..n], b, k);
    }
  }

  lemma GainNeedsReserve(s: Store, es: seq<Event>, b: BookingId, k: SeatId, i: nat, j: nat)
    requires i <= j <= |es|
    requires !Owns(Run(s, es[..i]), b, k) && Owns(Run(s, es[..j]), b, k)
    ensures exists r :: i <= r < j && ReservesFor(es[r], b)
  {
    RunPart(s, es, i, j);
    if forall r :: i <= r < j ==> !ReservesFor(es[r], b) {
      NoReserveNoGain(Run(s, es[..i]), es[i..j], b, k);
    }
  }

  /**
   A booking id is fresh, so it reserves at most once in a run. Then the states in which it owns a
   given seat form one interval: a seat lost or given up is never its own again.
   */
  lemma OwnershipIsOneInterval(s: Store, es: seq<Event>, b: BookingId, k: SeatId, i: nat, j: nat, l: nat)
    requires !Owns(s, b, k)
    requires forall x, y :: 0 <= x < |es| && 0 <= y < |es| && ReservesFor(es[x], b) && ReservesFor(es[y], b) ==> x == y
    requires i <= j <= l <= |es|
    requires Owns(Run(s, es[..i]), b, k) && Owns(Run(s, es[..l]), b, k)
    ensures Owns(Run(s, es[..j]), b, k)
  {
    GainNeedsReserve(s, es, b, k, 0, i);
    var r :| 0 <= r < i && ReservesFor(es[r], b);
    if !Owns(Run(s, es[..j]), b, k) {
      GainNeedsReserve(s, es, b, k, j, l);
      assert false;
    }
  }

  predicate BookedBy(s: Store, b: BookingId, k: SeatId) {
    k in s.seats && s.seats[k].Booked? && s.seats[k].owner == b
  }

  lemma {:induction false} NoReleaseStaysBooked(s: Store, es: seq<Event>, b: BookingId, k: SeatId)
    requires BookedBy(s, b, k)
    requires forall i :: 0 <= i < |es| ==> !Releases(es[i], b, k)
    ensures BookedBy(Run(s, es), b, k) && Run(s, es).seats[k] == s.seats[k]
  {
    if es != [] {
      var n := |es| - 1;
      NoReleaseStaysBooked(s, es[..n], b, k);
      BookedKept(Run(s, es[..n]), es[n], b, k);
    }
  }

  /** Over whole runs: a booked seat leaves that state only by its owner's release. */
  lemma BookedUntilReleased(s: Store, es: seq<Event>, b: BookingId, k: SeatId, i: nat, j: nat)
    requires i <= j <= |es|
    requires BookedBy(Run(s, es[..i]), b, k) && !BookedBy(Run(s, es[..j]), b, k)
    ensures exists r :: i <= r < j && Releases(es[r], b, k)
  {
    RunPart(s, es, i, j);
    if forall r :: i <= r < j ==> !Releases(es[r], b, k) {
      NoReleaseStaysBooked(Run(s, es[..i]), es[i..j], b, k);
    }
  }

  /**
   `b` holds seat `k` and does not reserve again. If in one run the owner's confirm of `k` and a rival's
   reserve of `k` both succeed, at whatever times (the boundary `now == held_until` included), then the
   confirm came first and the owner released the seat in between.
   */
  lemma NoDoubleSale(s: Store, es: seq<Event>, b: BookingId, rival: BookingId, k: SeatId, i: nat, j: nat)
    requires b != rival && i < |es| && j < |es|
    requires forall x :: 0 <= x < |es| ==> !ReservesFor(es[x], b)
    requires Confirms(Run(s, es[..i]), es[i], b, k)
    requires Grants(Run(s, es[..j]), es[j], rival, k)
    ensures i < j && exists r :: i < r < j && Releases(es[r], b, k)
  {
    RunStep(s, es, i);
    RunStep(s, es, j);
    GrantedWasFree(Run(s, es[..j]), es[j], rival, k);
    if j < i {
      assert !Owns(Run(s, es[..j + 1]), b, k);
      GainNeedsReserve(s, es, b, k, j + 1, i);
      assert false;
    } else {
      BookedUntilReleased(s, es, b, k, i + 1, j);
    }
  }

  // ----- the hold guarantee -----

  /** A script call that a holder must tolerate: not its own confirm, release or shortening, and before `h`. */
  predicate Tolerable(e: Event, b: BookingId, h: int) {
    && e.now < h
    && match e.op
       case Confirm(c, _) => c != b
       case Release(c, _) => c != b
       case Extend(c, _, extra) => c != b || extra >= 0
       case _ => true
  }

  predicate HeldPast(s: Store, b: BookingId, k: SeatId, h: int) {
    k in s.seats && s.seats[k].Held? && s.seats[k].owner == b && s.seats[k].until >= h
  }

  lemma {:induction false} ExtendNeverShortens(until: int, extra: int, now: int, n: nat)
    requires extra >= 0
    ensures ExtendTimes(until, extra, now, n) >= until
  {
    if n > 0 {
      ExtendNeverShortens(until, extra, now, n - 1);
    }
  }

  lemma HeldPastKept(s: Store, e: Event, b: BookingId, k: SeatId, h: int)
    requires HeldPast(s, b, k, h) && Tolerable(e, b, h)
    ensures HeldPast(Apply(s, e), b, k, h)
  {
    match e.op
    case Reserve(c, expire, reqs) =>
      ReserveGranted(s, c, expire, reqs, e.now);
    case Extend(c, ids, extra) =>
      if c == b {
        ExtendNeverShortens(s.seats[k].until, extra, e.now, Mentions(ids, k));
      }
    case _ =>
  }

  lemma {:induction false} HeldPastRun(s: Store, es: seq<Event>, b: BookingId, k: SeatId, h: int)
    requires HeldPast(s, b, k, h)
    requires forall i :: 0 <= i < |es| ==> Tolerable(es[i], b, h)
    ensures HeldPast(Run(s, es), b, k, h)
  {
    if es != [] {
      var n := |es| - 1;
      HeldPastRun(s, es[..n], b, k, h);
      HeldPastKept(Run(s, es[..n]), es[n], b, k, h);
    }
  }

  /**
   Once a batch of distinct seats is granted until `h`, no run of other scripts before `h` takes any of
   them away, and the booking's own confirm up to `h` then succeeds on every seat.
   */
  lemma HoldGuarantee(
    s: Store, b: BookingId, h: int, reqs: seq<Request>, now: int, es: seq<Event>, confirmAt: int)
    requires ReserveOutcome(s, b, h, reqs, now).Reserved?
    requires Distinct(Ids(reqs))
    requires forall i :: 0 <= i < |es| ==> Tolerable(es[i], b, h)
    requires confirmAt <= h
    ensures var t := Run(ReserveStore(s, b, h, reqs, now), es);
            && (forall k :: k in Ids(reqs) ==> HeldPast(t, b, k, h))
            && ConfirmOutcome(t, b, Ids(reqs), confirmAt) == BatchDone(|reqs|, [])
  {
    ReserveGranted(s, b, h, reqs, now);
    var held := ReserveStore(s, b, h, reqs, now);
    var t := Run(held, es);
    forall k | k in Ids(reqs)
      ensures HeldPast(t, b, k, h)
    {
      HeldPastRun(held, es, b, k, h);
    }
    ConfirmSucceeds(t, b, Ids(reqs), confirmAt);
  }

  // ----- flash sale -----

  predicate GrantedBatch(s: Store, es: seq<Event>, i: nat)
    requires i < |es| && es[i].op.Reserve?
  {
    ReserveOutcome(Run(s, es[..i]), es[i].op.b, es[i].op.expire, es[i].op.reqs, es[i].now).Reserved?
  }

  predicate OnlyReserves(es: seq<Event>) {
    forall i :: 0 <= i < |es| ==> es[i].op.Reserve?
  }

  /** Two granted batches of one sale never share a seat, while the first one's hold lasts. */
  lemma FlashSaleDisjoint(s: Store, es: seq<Event>, i: nat, j: nat, k: SeatId)
    requires OnlyReserves(es) && i < j < |es|
    requires GrantedBatch(s, es, i) && GrantedBatch(s, es, j)
    requires forall x :: i < x <= j ==> es[x].now < es[i].op.expire
    ensures !(k in Ids(es[i].op.reqs) && k in Ids(es[j].op.reqs))
  {
    if k in Ids(es[i].op.reqs) && k in Ids(es[j].op.reqs) {
      var b, h := es[i].op.b, es[i].op.expire;
      RunStep(s, es, i);
      ReserveGranted(Run(s, es[..i]), b, h, es[i].op.reqs, es[i].now);
      RunPart(s, es, i + 1, j);
      HeldPastRun(Run(s, es[..i + 1]), es[i + 1..j], b, k, h);
      ReserveGranted(Run(s, es[..j]), es[j].op.b, es[j].op.expire, es[j].op.reqs, es[j].now);
      assert false;
    }
  }

  /** The number of entries in the granted batches of a sale. */
  function SoldEntries(s: Store, es: seq<Event>): nat
    requires OnlyReserves(es)
  {
    if es == [] then 0
    else
      var n := |es| - 1;
      SoldEntries(s, es[..n]) + if GrantedBatch(s, es, n) then |es[n].op.reqs| else 0
  }

  predicate AllAvailable(s: Store) {
    forall k :: k in s.seats ==> s.seats[k].Available?
  }

  lemma {:induction false} EveryEntryAvailable(seats: Seats, reqs: seq<Request>)
    requires forall i :: 0 <= i < |reqs| ==> reqs[i].id in seats && seats[reqs[i].id].Available?
    ensures AvailableEntries(seats, reqs) == |reqs|
  {
    if reqs != [] {
      EveryEntryAvailable(seats, reqs[..|reqs| - 1]);
    }
  }

  /** Every event of the sale comes before the expiry of every hold granted in it. */
  ghost predicate EndsBeforeExpiry(s: Store, es: seq<Event>)
    requires OnlyReserves(es)
  {
    forall i :: 0 <= i < |es| && GrantedBatch(s, es, i) ==> Outlasts(es[i].op.expire, es)
  }

  ghost predicate Outlasts(until: int, es: seq<Event>) {
    forall x :: 0 <= x < |es| ==> es[x].now < until
  }

  /** In such a sale a seat held after `n` events outlives every event. */
  lemma {:induction false} SaleHolds(s: Store, es: seq<Event>, n: nat, k: SeatId)
    requires AllAvailable(s) && OnlyReserves(es) && n <= |es| && EndsBeforeExpiry(s, es)
    requires k in Run(s, es[..n]).seats
    ensures var seat := Run(s, es[..n]).seats[k];
            seat.Available? || (seat.Held? && Outlasts(seat.until, es))
  {
    if n > 0 {
      RunStep(s, es, n - 1);
      var u, op := Run(s, es[..n - 1]), es[n - 1].op;
      FieldsKept(u, es[n - 1]);
      SaleHolds(s, es, n - 1, k);
      if GrantedBatch(s, es, n - 1) && k in Ids(op.reqs) {
        assert Run(s, es[..n]).seats[k] == Held(TypeFor(op.reqs, k), op.b, op.expire);
        assert Outlasts(op.expire, es);
      } else {
        assert Run(s, es[..n]).seats[k] == u.seats[k];
      }
    }
  }

  /**
   A sale that starts with every seat available and ends before any granted hold does: the counter goes
   down by exactly the entries of the granted batches, and the refused batches leave no trace.
   */
  lemma {:induction false} FlashSaleCounter(s: Store, es: seq<Event>)
    requires AllAvailable(s) && OnlyReserves(es) && EndsBeforeExpiry(s, es)
    ensures Run(s, es).available == s.available - SoldEntries(s, es)
  {
    if es != [] {
      var n := |es| - 1;
      var p := es[..n];
      forall i | 0 <= i < n
        ensures GrantedBatch(s, p, i) == GrantedBatch(s, es, i)
      {
        assert p[..i] == es[..i];
      }
      FlashSaleCounter(s, p);
      var u, op := Run(s, p), es[n].op;
      if GrantedBatch(s, es, n) {
        ReserveGranted(u, op.b, op.expire, op.reqs, es[n].now);
        forall i | 0 <= i < |op.reqs|
          ensures u.seats[op.reqs[i].id].Available?
        {
          SaleHolds(s, es, n, op.reqs[i].id);
        }
        EveryEntryAvailable(u.seats, op.reqs);
      }
    }
  }
}
