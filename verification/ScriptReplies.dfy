/**
 What a script's reply tells its caller: each success reply is characterised by the
 hash alone, without reference to the order in which the loop visits the list.
 */
module ScriptReplies {
  import opened Basics
  import opened SeatModel

  /** All or nothing: a batch is granted exactly when every listed seat exists and is free. */
  lemma ReserveGranted(s: Store, b: BookingId, expire: int, reqs: seq<Request>, now: int)
    ensures ReserveOutcome(s, b, expire, reqs, now).Reserved? <==>
            && b != [] && expire > 0 && reqs != []
            && forall i :: 0 <= i < |reqs| ==> reqs[i].id in s.seats && Free(s.seats[reqs[i].id], now)
  {
    RefusalsEmpty(s.seats, reqs, now);
  }

  lemma {:induction false} RefusalsEmpty(seats: Seats, reqs: seq<Request>, now: int)
    ensures Refusals(seats, reqs, now) == [] <==>
            forall i :: 0 <= i < |reqs| ==> reqs[i].id in seats && Free(seats[reqs[i].id], now)
  {
    if reqs != [] {
      RefusalsEmpty(seats, reqs[..|reqs| - 1], now);
    }
  }

  ghost predicate AllConfirmable(seats: Seats, b: BookingId, ids: seq<SeatId>, now: int) {
    forall id :: id in ids ==> id in seats && Confirmable(seats[id], b, now)
  }

  /**
   The confirm script reports success exactly for a list without repetition whose seats are all live
   holds of the booking; and the count it reports is the number of seats it turned into booked ones.
   */
  lemma ConfirmSucceeds(s: Store, b: BookingId, ids: seq<SeatId>, now: int)
    ensures BatchOk(ConfirmOutcome(s, b, ids, now)) <==>
            b != [] && ids != [] && Distinct(ids) && AllConfirmable(s.seats, b, ids, now)
    ensures b != [] && ids != [] ==> ConfirmOutcome(s, b, ids, now).changed == |Confirmed(s.seats, b, ids, now)|
  {
    ConfirmTally(s.seats, b, ids, now);
    ChosenFillsList(Confirmed(s.seats, b, ids, now), ids);
  }

  function Confirmed(seats: Seats, b: BookingId, ids: seq<SeatId>, now: int): set<SeatId> {
    set k | k in seats && k in ids && Confirmable(seats[k], b, now)
  }

  lemma {:induction false} ConfirmTally(seats: Seats, b: BookingId, ids: seq<SeatId>, now: int)
    ensures |ids| - |ConfirmFailures(seats, b, ids, now)| == |Confirmed(seats, b, ids, now)|
  {
    if ids != [] {
      var p, id := ids[..|ids| - 1], ids[|ids| - 1];
      ConfirmTally(seats, b, p, now);
      assert ids == p + [id];
      if id in seats && id !in p && Confirmable(seats[id], b, now) {
        assert Confirmed(seats, b, ids, now) == Confirmed(seats, b, p, now) + {id};
      } else {
        assert Confirmed(seats, b, ids, now) == Confirmed(seats, b, p, now);
      }
    }
  }

  function Released(seats: Seats, b: BookingId, ids: seq<SeatId>): set<SeatId> {
    set k | k in seats && k in ids && OwnedBy(seats[k], b)
  }

  lemma {:induction false} ReleaseTally(seats: Seats, b: BookingId, ids: seq<SeatId>)
    ensures |ids| - |ReleaseFailures(seats, b, ids)| == |Released(seats, b, ids)|
  {
    if ids != [] {
      var p, id := ids[..|ids| - 1], ids[|ids| - 1];
      ReleaseTally(seats, b, p);
      assert ids == p + [id];
      if id in seats && id !in p && OwnedBy(seats[id], b) {
        assert Released(seats, b, ids) == Released(seats, b, p) + {id};
      } else {
        assert Released(seats, b, ids) == Released(seats, b, p);
      }
    }
  }

  /** The release script reports success exactly for a list without repetition whose seats are all the booking's. */
  lemma ReleaseSucceeds(s: Store, b: BookingId, ids: seq<SeatId>)
    ensures BatchOk(ReleaseOutcome(s, b, ids)) <==>
            && b != [] && ids != [] && Distinct(ids)
            && forall id :: id in ids ==> id in s.seats && OwnedBy(s.seats[id], b)
    ensures b != [] && ids != [] ==> ReleaseOutcome(s, b, ids).changed == |Released(s.seats, b, ids)|
  {
    ReleaseTally(s.seats, b, ids);
    ChosenFillsList(Released(s.seats, b, ids), ids);
  }

  /** A selection from a list is as long as the list only when it takes everything and nothing repeats. */
  lemma ChosenFillsList<T>(chosen: set<T>, ids: seq<T>)
    requires forall k :: k in chosen ==> k in ids
    ensures |chosen| == |ids| <==> Distinct(ids) && forall id :: id in ids ==> id in chosen
  {
    DistinctIffFull(ids);
    SplitCard(Elems(ids), chosen);
    if |chosen| == |ids| {
      assert chosen == Elems(ids);
    }
    if forall id :: id in ids ==> id in chosen {
      assert chosen == Elems(ids);
    }
  }
}
