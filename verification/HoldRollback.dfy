/**
 `holdSeats` reserves in Redis before it inserts in Mongo, and releases again when the insert fails.
 These lemmas show that the two scripts cancel out, also when other scripts run in between.
 */
module HoldRollback {
  import opened Basics
  import opened SeatModel
  import opened ScriptReplies
  import opened SeatRuns
  import opened SeatCounter

  /** `t` is `s` with the available seats `names` taken by `b` until `h`, and the counter lowered to match. */
  ghost predicate Taking(s: Store, t: Store, b: BookingId, h: int, names: set<SeatId>) {
    && names <= s.seats.Keys == t.seats.Keys
    && (forall k :: k in s.seats ==>
          if k in names
          then s.seats[k].Available? && t.seats[k] == Held(s.seats[k].seatType, b, h)
          else t.seats[k] == s.seats[k])
    && t.available == s.available - |names|
  }

  /** The event names none of the seats, or frees only holds that have run out by then. */
  predicate Disjoint(e: Event, names: set<SeatId>, h: int) {
    match e.op
    case Reserve(_, _, reqs) => Elems(Ids(reqs)) !! names
    case ReserveOne(_, _, r) => r.id !in names
    case Confirm(_, ids) => Elems(ids) !! names
    case Release(_, ids) => Elems(ids) !! names
    case Extend(_, ids, _) => Elems(ids) !! names
    case Cleanup => e.now <= h
    case Read(ids) => e.now <= h || (ids != [] && Elems(ids) !! names)
  }

  lemma {:induction false} SameRefusals(s: Seats, t: Seats, reqs: seq<Request>, now: int)
    requires forall i :: 0 <= i < |reqs| ==> (reqs[i].id in s <==> reqs[i].id in t)
    requires forall i :: 0 <= i < |reqs| && reqs[i].id in s ==> t[reqs[i].id] == s[reqs[i].id]
    ensures Refusals(s, reqs, now) == Refusals(t, reqs, now)
    ensures AvailableEntries(s, reqs) == AvailableEntries(t, reqs)
  {
    if reqs != [] {
      SameRefusals(s, t, reqs[..|reqs| - 1], now);
    }
  }

  lemma {:induction false} NeverMentioned(ids: seq<SeatId>, k: SeatId)
    requires k !in ids
    ensures Mentions(ids, k) == 0
  {
    if ids != [] {
      NeverMentioned(ids[..|ids| - 1], k);
    }
  }

  lemma TakingReserve(s: Store, t: Store, e: Event, b: BookingId, h: int, names: set<SeatId>)
    requires Taking(s, t, b, h, names) && Disjoint(e, names, h) && e.op.Reserve?
    ensures Taking(Apply(s, e), Apply(t, e), b, h, names)
  {
    var reqs := e.op.reqs;
    forall i | 0 <= i < |reqs|
      ensures reqs[i].id !in names
    {
      assert Ids(reqs)[i] in Elems(Ids(reqs));
    }
    SameRefusals(s.seats, t.seats, reqs, e.now);
  }

  lemma TakingRelease(s: Store, t: Store, e: Event, b: BookingId, h: int, names: set<SeatId>)
    requires Taking(s, t, b, h, names) && Disjoint(e, names, h) && e.op.Release?
    ensures Taking(Apply(s, e), Apply(t, e), b, h, names)
  {
    var c, ids := e.op.b, e.op.ids;
    ReleaseTally(s.seats, c, ids);
    ReleaseTally(t.seats, c, ids);
    assert forall k :: k in ids ==> k in Elems(ids);
    assert Released(s.seats, c, ids) == Released(t.seats, c, ids);
  }

  lemma TakingClean(s: Store, t: Store, ids: set<SeatId>, now: int, b: BookingId, h: int, names: set<SeatId>)
    requires Taking(s, t, b, h, names) && (now <= h || ids !! names)
    ensures Taking(CleanStore(s, ids, now), CleanStore(t, ids, now), b, h, names)
  {
    assert ExpiredAmong(s.seats, ids, now) == ExpiredAmong(t.seats, ids, now);
  }

  lemma TakingExtend(s: Store, t: Store, e: Event, b: BookingId, h: int, names: set<SeatId>)
    requires Taking(s, t, b, h, names) && Disjoint(e, names, h) && e.op.Extend?
    ensures Taking(Apply(s, e), Apply(t, e), b, h, names)
  {
    forall k | k in names
      ensures Mentions(e.op.ids, k) == 0
    {
      assert k in e.op.ids ==> k in Elems(e.op.ids);
      NeverMentioned(e.op.ids, k);
    }
  }

  /** Any such event acts on both states alike. */
  lemma TakingKept(s: Store, t: Store, e: Event, b: BookingId, h: int, names: set<SeatId>)
    requires Taking(s, t, b, h, names) && Disjoint(e, names, h)
    ensures Taking(Apply(s, e), Apply(t, e), b, h, names)
  {
    match e.op
    case Reserve(_, _, _) => TakingReserve(s, t, e, b, h, names);
    case ReserveOne(_, _, _) =>
    case Confirm(_, ids) => assert forall k :: k in ids ==> k in Elems(ids);
    case Release(_, _) => TakingRelease(s, t, e, b, h, names);
    case Extend(_, _, _) => TakingExtend(s, t, e, b, h, names);
    case Cleanup => TakingClean(s, t, s.seats.Keys, e.now, b, h, names);
    case Read(ids) => TakingClean(s, t, ReadScope(s, ids), e.now, b, h, names);
  }

  lemma {:induction false} TakingRun(s: Store, t: Store, es: seq<Event>, b: BookingId, h: int, names: set<SeatId>)
    requires Taking(s, t, b, h, names)
    requires forall i :: 0 <= i < |es| ==> Disjoint(es[i], names, h)
    ensures Taking(Run(s, es), Run(t, es), b, h, names)
  {
    if es != [] {
      var n := |es| - 1;
      TakingRun(s, t, es[..n], b, h, names);
      TakingKept(Run(s, es[..n]), Run(t, es[..n]), es[n], b, h, names);
    }
  }

  /** The rollback's release undoes the taking, and reports every seat released. */
  lemma ReleaseUndoesTaking(s: Store, t: Store, b: BookingId, h: int, ids: seq<SeatId>)
    requires b != [] && ids != [] && Distinct(ids) && Taking(s, t, b, h, Elems(ids))
    ensures ReleaseStore(t, b, ids) == s
    ensures ReleaseOutcome(t, b, ids) == BatchDone(|ids|, [])
  {
    ReleaseTally(t.seats, b, ids);
    DistinctIffFull(ids);
    assert Released(t.seats, b, ids) == Elems(ids);
  }

  predicate AvailableAsRequested(s: Store, reqs: seq<Request>) {
    forall i :: 0 <= i < |reqs| ==> reqs[i].id in s.seats && s.seats[reqs[i].id] == Available(reqs[i].seatType)
  }

  /** A hold of distinct available seats, requested with their stored types, is granted and takes just those. */
  lemma HoldTakes(s: Store, b: BookingId, h: int, reqs: seq<Request>, now: int)
    requires b != [] && h > 0 && reqs != [] && Distinct(Ids(reqs)) && AvailableAsRequested(s, reqs)
    ensures ReserveOutcome(s, b, h, reqs, now).Reserved?
    ensures Taking(s, ReserveStore(s, b, h, reqs, now), b, h, Elems(Ids(reqs)))
  {
    ReserveGranted(s, b, h, reqs, now);
    forall k | k in Ids(reqs)
      ensures k in s.seats && s.seats[k] == Available(TypeFor(reqs, k))
    {
      var i :| 0 <= i < |reqs| && Ids(reqs)[i] == k;
      assert reqs[i].id == k;
      TypeForIsStored(s, reqs, k);
    }
    DistinctIffFull(Ids(reqs));
    EveryEntryAvailable(s.seats, reqs);
  }

  /**
   A failed `holdSeats` leaves nothing behind. Its distinct seats were available and requested with their
   stored types; whatever runs between its reserve and its rollback release, as long as it names none of
   those seats or cleans no later than the hold's expiry, ends in exactly the state it would have
   reached without the two scripts.
   */
  lemma FailedHoldLeavesNothing(
    s: Store, b: BookingId, h: int, reqs: seq<Request>, now: int, es: seq<Event>, rollbackAt: int)
    requires b != [] && h > 0 && reqs != [] && Distinct(Ids(reqs)) && AvailableAsRequested(s, reqs)
    requires forall i :: 0 <= i < |es| ==> Disjoint(es[i], Elems(Ids(reqs)), h)
    ensures var hold, rollback := Event(now, Reserve(b, h, reqs)), Event(rollbackAt, Release(b, Ids(reqs)));
            Run(s, [hold] + es + [rollback]) == Run(s, es)
  {
    var hold, rollback := Event(now, Reserve(b, h, reqs)), Event(rollbackAt, Release(b, Ids(reqs)));
    HoldTakes(s, b, h, reqs, now);
    var t := ReserveStore(s, b, h, reqs, now);
    TakingRun(s, t, es, b, h, Elems(Ids(reqs)));
    ReleaseUndoesTaking(Run(s, es), Run(t, es), b, h, Ids(reqs));
    RunOne(s, hold);
    RunOne(Run(t, es), rollback);
    RunAppend(s, [hold], es);
    RunAppend(s, [hold] + es, [rollback]);
  }

  lemma RunOne(s: Store, e: Event)
    ensures Run(s, [e]) == Apply(s, e)
  {
    assert [e][..0] == [];
  }
}
