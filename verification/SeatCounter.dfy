/**
 The `available` counter against the number of available seats. Five scripts maintain
 the counter incrementally; the only way they lose track is a granted batch that names an available
 seat twice, and each such repetition costs exactly one.
 */
module SeatCounter {
  import opened Basics
  import opened SeatModel
  import opened ScriptReplies
  import opened SeatRuns

  /** Entries of the list that name an available seat which an earlier entry already named. */
  function RepeatedAvailable(seats: Seats, reqs: seq<Request>): nat {
    if reqs == [] then 0
    else
      var n := |reqs| - 1;
      var id := reqs[n].id;
      RepeatedAvailable(seats, reqs[..n]) +
      if id in seats && seats[id].Available? && id in Ids(reqs[..n]) then 1 else 0
  }

  function AvailableNamed(seats: Seats, reqs: seq<Request>): set<SeatId> {
    set k | k in seats && seats[k].Available? && k in Ids(reqs)
  }

  lemma {:induction false} EntriesAreSeatsPlusRepeats(seats: Seats, reqs: seq<Request>)
    ensures AvailableEntries(seats, reqs) == |AvailableNamed(seats, reqs)| + RepeatedAvailable(seats, reqs)
  {
    if reqs != [] {
      var n := |reqs| - 1;
      var p, id := reqs[..n], reqs[n].id;
      EntriesAreSeatsPlusRepeats(seats, p);
      assert Ids(reqs) == Ids(p) + [id];
      if id in seats && seats[id].Available? {
        assert AvailableNamed(seats, reqs) == AvailableNamed(seats, p) + {id};
      } else {
        assert AvailableNamed(seats, reqs) == AvailableNamed(seats, p);
      }
    }
  }

  /** By how much one event lets the counter fall behind. */
  function Drift(s: Store, e: Event): nat {
    if e.op.Reserve? && ReserveOutcome(s, e.op.b, e.op.expire, e.op.reqs, e.now).Reserved?
    then RepeatedAvailable(s.seats, e.op.reqs)
    else 0
  }

  /** How far the counter is ahead of the available seats; negative when it is behind. */
  function Surplus(s: Store): int {
    s.available - |AvailableSet(s.seats)|
  }

  /** Seats that become available, given that no other seat's availability changes. */
  lemma Freed(before: Seats, after: Seats, freed: set<SeatId>)
    requires AvailableSet(after) == AvailableSet(before) + freed
    requires AvailableSet(before) !! freed
    ensures |AvailableSet(after)| == |AvailableSet(before)| + |freed|
  {
  }

  lemma Taken(before: Seats, after: Seats, taken: set<SeatId>)
    requires AvailableSet(after) == AvailableSet(before) - taken
    requires taken <= AvailableSet(before)
    ensures |AvailableSet(after)| == |AvailableSet(before)| - |taken|
  {
    SplitCard(AvailableSet(before), taken);
  }

  lemma ReserveSurplus(s: Store, b: BookingId, expire: int, reqs: seq<Request>, now: int)
    requires ReserveOutcome(s, b, expire, reqs, now).Reserved?
    ensures Surplus(ReserveStore(s, b, expire, reqs, now)) == Surplus(s) - RepeatedAvailable(s.seats, reqs)
  {
    EntriesAreSeatsPlusRepeats(s.seats, reqs);
    Taken(s.seats, HoldAll(s.seats, reqs, b, expire), AvailableNamed(s.seats, reqs));
  }

  lemma ReserveOneSurplus(s: Store, b: BookingId, expire: int, r: Request, now: int)
    ensures Surplus(ReserveOneStore(s, b, expire, r, now)) == Surplus(s)
  {
    if ReserveOneOutcome(s, r, now).SingleReserved? {
      Taken(s.seats, s.seats[r.id := Held(r.seatType, b, expire)], if s.seats[r.id].Available? then {r.id} else {});
    }
  }

  lemma ReleaseSurplus(s: Store, b: BookingId, ids: seq<SeatId>)
    ensures Surplus(ReleaseStore(s, b, ids)) == Surplus(s)
  {
    ReleaseTally(s.seats, b, ids);
    Freed(s.seats, ReleaseAll(s.seats, b, ids), Released(s.seats, b, ids));
  }

  lemma CleanSurplus(s: Store, ids: set<SeatId>, now: int)
    ensures Surplus(CleanStore(s, ids, now)) == Surplus(s)
  {
    Freed(s.seats, CleanAmong(s.seats, ids, now), ExpiredAmong(s.seats, ids, now));
  }

  lemma ConfirmExtendSurplus(s: Store, b: BookingId, ids: seq<SeatId>, extra: int, now: int)
    ensures Surplus(ConfirmStore(s, b, ids, now)) == Surplus(s) == Surplus(ExtendStore(s, b, ids, extra, now))
  {
    assert AvailableSet(ConfirmAll(s.seats, b, ids, now)) == AvailableSet(s.seats);
    assert AvailableSet(ExtendAll(s.seats, b, ids, extra, now)) == AvailableSet(s.seats);
  }

  /** One event changes the surplus by its drift and by nothing else, from any state. */
  lemma SurplusStep(s: Store, e: Event)
    ensures Surplus(Apply(s, e)) == Surplus(s) - Drift(s, e)
  {
    match e.op
    case Reserve(b, expire, reqs) =>
      if ReserveOutcome(s, b, expire, reqs, e.now).Reserved? {
        ReserveSurplus(s, b, expire, reqs, e.now);
      }
    case ReserveOne(b, expire, r) => ReserveOneSurplus(s, b, expire, r, e.now);
    case Release(b, ids) => ReleaseSurplus(s, b, ids);
    case Cleanup => CleanSurplus(s, s.seats.Keys, e.now);
    case Read(ids) => CleanSurplus(s, ReadScope(s, ids), e.now);
    case Confirm(b, ids) => ConfirmExtendSurplus(s, b, ids, 0, e.now);
    case Extend(b, ids, extra) => ConfirmExtendSurplus(s, b, ids, extra, e.now);
  }

  function TotalDrift(s: Store, es: seq<Event>): nat {
    if es == [] then 0
    else
      var n := |es| - 1;
      TotalDrift(s, es[..n]) + Drift(Run(s, es[..n]), es[n])
  }

  lemma {:induction false} SurplusRun(s: Store, es: seq<Event>)
    ensures Surplus(Run(s, es)) == Surplus(s) - TotalDrift(s, es)
  {
    if es != [] {
      var n := |es| - 1;
      SurplusRun(s, es[..n]);
      SurplusStep(Run(s, es[..n]), es[n]);
    }
  }

  function DriftAt(s: Store, es: seq<Event>, i: nat): nat
    requires i < |es|
  {
    Drift(Run(s, es[..i]), es[i])
  }

  lemma {:induction false} NoDriftIff(s: Store, es: seq<Event>)
    ensures TotalDrift(s, es) == 0 <==> forall i :: 0 <= i < |es| ==> DriftAt(s, es, i) == 0
  {
    if es != [] {
      var n := |es| - 1;
      var p := es[..n];
      NoDriftIff(s, p);
      forall i | 0 <= i < n
        ensures DriftAt(s, p, i) == DriftAt(s, es, i)
      {
        assert p[..i] == es[..i];
      }
      assert TotalDrift(s, es) == TotalDrift(s, p) + DriftAt(s, es, n);
    }
  }

  /** Starting a showtime sets the counter right exactly when its seat list has no repetition. */
  lemma InitExactIff(list: seq<Request>)
    ensures AvailableSet(InitStore(list).seats) == InitStore(list).seats.Keys == Elems(Ids(list))
    ensures Surplus(InitStore(list)) >= 0
    ensures Surplus(InitStore(list)) == 0 <==> Distinct(Ids(list))
  {
    DistinctIffFull(Ids(list));
    assert AvailableSet(InitStore(list).seats) == Elems(Ids(list));
    assert InitStore(list).seats.Keys == Elems(Ids(list));
  }

  /**
   From a properly started showtime, over every run: the counter is never above the number of available
   seats, the gap is the repeated available entries of granted batches, and so the counter is exact at
   the end if and only if no granted batch along the way repeated an available seat.
   */
  lemma CounterRefinement(list: seq<Request>, es: seq<Event>)
    requires Distinct(Ids(list))
    ensures var t := Run(InitStore(list), es);
            && |AvailableSet(t.seats)| - t.available == TotalDrift(InitStore(list), es)
            && t.available <= |AvailableSet(t.seats)| <= |t.seats|
            && (t.available == |AvailableSet(t.seats)| <==>
                forall i :: 0 <= i < |es| ==> DriftAt(InitStore(list), es, i) == 0)
  {
    InitExactIff(list);
    SurplusRun(InitStore(list), es);
    NoDriftIff(InitStore(list), es);
    var t := Run(InitStore(list), es);
    SplitCard(t.seats.Keys, AvailableSet(t.seats));
  }

  lemma {:induction false} DistinctNeverDrifts(seats: Seats, reqs: seq<Request>)
    requires Distinct(Ids(reqs))
    ensures RepeatedAvailable(seats, reqs) == 0
  {
    if reqs != [] {
      var n := |reqs| - 1;
      assert forall i :: 0 <= i < n ==> Ids(reqs[..n])[i] == Ids(reqs)[i];
      DistinctNeverDrifts(seats, reqs[..n]);
      assert Ids(reqs)[n] == reqs[n].id;
    }
  }

  /** With duplicate-free seat lists the counter is the number of available seats, within 0 and the field count. */
  lemma CounterExact(list: seq<Request>, es: seq<Event>)
    requires Distinct(Ids(list))
    requires forall i :: 0 <= i < |es| && es[i].op.Reserve? ==> Distinct(Ids(es[i].op.reqs))
    ensures var t := Run(InitStore(list), es);
            && t.available == |AvailableSet(t.seats)|
            && 0 <= t.available <= |t.seats| == |list|
  {
    forall i | 0 <= i < |es|
      ensures DriftAt(InitStore(list), es, i) == 0
    {
      if es[i].op.Reserve? {
        DistinctNeverDrifts(Run(InitStore(list), es[..i]).seats, es[i].op.reqs);
      }
    }
    CounterRefinement(list, es);
    InitExactIff(list);
    FieldsKeptRun(InitStore(list), es);
    DistinctIffFull(Ids(list));
    assert |Run(InitStore(list), es).seats| == |Run(InitStore(list), es).seats.Keys|;
  }

  lemma {:induction false} FieldsKeptRun(s: Store, es: seq<Event>)
    ensures Run(s, es).seats.Keys == s.seats.Keys
  {
    if es != [] {
      FieldsKeptRun(s, es[..|es| - 1]);
      FieldsKept(Run(s, es[..|es| - 1]), es[|es| - 1]);
    }
  }

  /** One granted request for the same seat twice drives the counter of a one-seat showtime below zero. */
  lemma RepeatedSeatGoesNegative()
    ensures var seat := Request([65, 49], STANDARD);
            var t := Run(InitStore([seat]), [Event(0, Reserve([1], 600, [seat, seat]))]);
            t.available == -1 && AvailableSet(t.seats) == {}
  {
    var seat := Request([65, 49], STANDARD);
    var e := Event(0, Reserve([1], 600, [seat, seat]));
    var s := InitStore([seat]);
    assert Ids([seat])[0] == seat.id;
    assert s.seats[seat.id] == Available(STANDARD);
    ReserveGranted(s, [1], 600, [seat, seat], 0);
    assert [e][..0] == [];
    assert Run(s, [e]) == Apply(s, e);
    assert [seat, seat][..1] == [seat];
    assert [seat][..0] == [];
    assert AvailableEntries(s.seats, [seat]) == 1;
    assert AvailableEntries(s.seats, [seat, seat]) == 2;
    assert Ids([seat, seat])[0] == seat.id;
    assert s.seats.Keys == {seat.id};
  }

  // ----- seat types -----

  function TypeOf(s: Store, k: SeatId): Str
    requires k in s.seats
  {
    s.seats[k].seatType
  }

  /** Requests carry the stored types, as the service's do. */
  predicate UsesStoredTypes(s: Store, e: Event) {
    match e.op
    case Reserve(_, _, reqs) =>
      forall i :: 0 <= i < |reqs| && reqs[i].id in s.seats ==> reqs[i].seatType == TypeOf(s, reqs[i].id)
    case ReserveOne(_, _, r) => r.id in s.seats ==> r.seatType == TypeOf(s, r.id)
    case _ => true
  }

  lemma {:induction false} TypeForIsStored(s: Store, reqs: seq<Request>, k: SeatId)
    requires forall i :: 0 <= i < |reqs| && reqs[i].id in s.seats ==> reqs[i].seatType == TypeOf(s, reqs[i].id)
    requires k in Ids(reqs) && k in s.seats
    ensures TypeFor(reqs, k) == TypeOf(s, k)
  {
    var n := |reqs| - 1;
    if reqs[n].id != k {
      var i :| 0 <= i < |reqs| && Ids(reqs)[i] == k;
      assert Ids(reqs[..n])[i] == k;
      TypeForIsStored(s, reqs[..n], k);
    }
  }

  /** Then no script of a run ever changes the type of a seat, nor the set of fields. */
  lemma {:induction false} TypesKept(s: Store, es: seq<Event>)
    requires forall i :: 0 <= i < |es| ==> UsesStoredTypes(s, es[i])
    ensures Run(s, es).seats.Keys == s.seats.Keys
    ensures forall k :: k in s.seats ==> TypeOf(Run(s, es), k) == TypeOf(s, k)
  {
    if es != [] {
      var n := |es| - 1;
      TypesKept(s, es[..n]);
      var u, e := Run(s, es[..n]), es[n];
      assert UsesStoredTypes(u, e);
      if e.op.Reserve? {
        forall k | k in Ids(e.op.reqs) && k in u.seats
          ensures TypeFor(e.op.reqs, k) == TypeOf(u, k)
        {
          TypeForIsStored(u, e.op.reqs, k);
        }
      }
    }
  }
}
