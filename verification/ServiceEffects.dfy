/**
 What the service methods do to the records and to single seats, said on their fields: which booking gets which status,
 which payment, which seats change and to what, and that everything else stays as it was. The contracts of
 BookingBackend name these worlds; the last section ties the expiry job's own list to the protocol's steps.
 */
module ServiceEffects {
  import opened Basics
  import opened SeatModel
  import opened ScriptReplies
  import opened ScriptEffects
  import opened SeatRuns
  import opened BookingProtocol
  import opened BookingService
  import opened BookingRuns

  type Stores = map<ShowtimeId, Store>

  predicate Owned(seats: Seats, b: BookingId, k: SeatId) {
    k in seats && !seats[k].Available? && seats[k].owner == b
  }

  ghost predicate OnlyIn(stores: Stores, stores': Stores, showtime: ShowtimeId) {
    stores'.Keys == stores.Keys && forall sh :: sh in stores && sh != showtime ==> stores'[sh] == stores[sh]
  }

  /** The listed seats of `b` become available, the counter rises by their number, and nothing else changes. */
  ghost predicate Frees(stores: Stores, stores': Stores, showtime: ShowtimeId, b: BookingId, ids: seq<SeatId>) {
    && OnlyIn(stores, stores', showtime)
    && (showtime in stores ==>
          var s, t := stores[showtime], stores'[showtime];
          && t.seats.Keys == s.seats.Keys
          && t.available == s.available + |set k | k in s.seats && k in ids && Owned(s.seats, b, k)|
          && forall k :: k in s.seats ==>
               t.seats[k] == if k in ids && Owned(s.seats, b, k) then Available(s.seats[k].seatType) else s.seats[k])
  }

  lemma ReleaseFrees(w: World, showtime: ShowtimeId, b: BookingId, ids: seq<SeatId>)
    requires b != []
    ensures Frees(w.stores, Script(w, showtime, Release(b, ids), 0).stores, showtime, b, ids)
  {
    if showtime in w.stores {
      var s := w.stores[showtime];
      ReleaseTally(s.seats, b, ids);
      assert Released(s.seats, b, ids) == set k | k in s.seats && k in ids && Owned(s.seats, b, k);
      forall k | k in s.seats
        ensures ReleaseStore(s, b, ids).seats[k] ==
                if k in ids && Owned(s.seats, b, k) then Available(s.seats[k].seatType) else s.seats[k]
      {
        ReleasedSeats(s, b, ids, k);
      }
    }
  }

  // ----- holdSeats -----

  predicate AllFree(seats: Seats, reqs: seq<Request>, now: int) {
    forall i :: 0 <= i < |reqs| ==> !Blocked(seats, reqs[i].id, now)
  }

  /** The list is not empty, all its seats are free, and the expiry is positive, as the script demands. */
  predicate CanHold(seats: Seats, reqs: seq<Request>, reserveMs: int, now: int) {
    reserveMs / 1000 + 600 > 0 && reqs != [] && AllFree(seats, reqs, now)
  }

  /** Every listed seat is `b`'s until `h`, with the type of its last entry; every other seat is as before. */
  ghost predicate Takes(seats: Seats, seats': Seats, b: BookingId, reqs: seq<Request>, h: int) {
    && seats'.Keys == seats.Keys
    && (forall k, i: nat :: k in seats && LastNaming(reqs, k, i) ==> seats'[k] == Held(reqs[i].seatType, b, h))
    && forall k :: k in seats && k !in Ids(reqs) ==> seats'[k] == seats[k]
  }

  lemma HoldGrantedIff(s: Store, b: BookingId, reqs: seq<Request>, reserveMs: int, now: int)
    requires b != []
    ensures ReserveOutcome(s, b, reserveMs / 1000 + HOLD_SECONDS, reqs, now).Reserved? <==>
            CanHold(s.seats, reqs, reserveMs, now)
    ensures CanHold(s.seats, reqs, reserveMs, now) ==> s.seats != map[]
  {
    ReserveGranted(s, b, reserveMs / 1000 + HOLD_SECONDS, reqs, now);
    if CanHold(s.seats, reqs, reserveMs, now) {
      assert reqs[0].id in s.seats;
    }
  }

  /** The record added, the seats held ten minutes, and nothing else. */
  ghost predicate HoldAdds(w: World, u: World, b: BookingId, booking: Booking, reserveMs: int) {
    && u.bookings == w.bookings[b := booking] && u.payments == w.payments && u.pc == w.pc
    && OnlyIn(w.stores, u.stores, booking.showtime) && booking.showtime in u.stores && booking.showtime in w.stores
    && Takes(w.stores[booking.showtime].seats, u.stores[booking.showtime].seats, b, booking.reqs,
             reserveMs / 1000 + 600)
  }

  lemma HoldInserted(
    w: World, b: BookingId, showtime: ShowtimeId, reqs: seq<Request>, reserveMs: int, now: int, insertMs: int)
    requires b != [] && b !in w.pc && CanHold(StoreOf(w, showtime).seats, reqs, reserveMs, now)
    ensures HoldAdds(w, HoldRun(w, b, showtime, reqs, reserveMs, now, insertMs, true), b,
                     Booking(showtime, reqs, insertMs + 600_000, BookingPending), reserveMs)
  {
    var s, h := StoreOf(w, showtime), reserveMs / 1000 + HOLD_SECONDS;
    HoldGrantedIff(s, b, reqs, reserveMs, now);
    HoldTakesSeats(s, b, h, reqs, now);
    assert w.pc[b := HoldReserved(showtime, reqs, h)] - {b} == w.pc;
  }

  lemma HoldNotInserted(
    w: World, b: BookingId, showtime: ShowtimeId, reqs: seq<Request>, reserveMs: int, now: int, insertMs: int)
    requires b != [] && b !in w.pc && CanHold(StoreOf(w, showtime).seats, reqs, reserveMs, now)
    ensures var u := HoldRun(w, b, showtime, reqs, reserveMs, now, insertMs, false);
            u.bookings == w.bookings && u.payments == w.payments && u.pc == w.pc
  {
    HoldGrantedIff(StoreOf(w, showtime), b, reqs, reserveMs, now);
    var pc := w.pc[b := HoldReserved(showtime, reqs, reserveMs / 1000 + HOLD_SECONDS)];
    assert pc[b := HoldRollback(showtime, reqs)] - {b} == w.pc;
  }

  /**
   `holdSeats` with known seats: it succeeds exactly when every seat is free and the insert works, and then the reply is
   the one record added and the seats are held ten minutes; else no record is added, and a refusal changes nothing.
   */
  lemma HoldEffect(
    w: World, b: BookingId, showtime: ShowtimeId, reqs: seq<Request>,
    reserveMs: int, now: int, insertMs: int, insertSucceeds: bool)
    requires b != [] && b !in w.pc
    ensures var u := HoldRun(w, b, showtime, reqs, reserveMs, now, insertMs, insertSucceeds);
            var r := HoldReply(w, b, showtime, reqs, reserveMs, now, insertMs, insertSucceeds);
            if !CanHold(StoreOf(w, showtime).seats, reqs, reserveMs, now)
            then r.Err? && r.error.SeatsNotAvailable? && u == w
            else if insertSucceeds
            then r == Ok(Booking(showtime, reqs, insertMs + 600_000, BookingPending)) &&
                 HoldAdds(w, u, b, r.value, reserveMs)
            else r == Err(BookingFailed) && u.bookings == w.bookings && u.payments == w.payments && u.pc == w.pc
  {
    HoldGrantedIff(StoreOf(w, showtime), b, reqs, reserveMs, now);
    if CanHold(StoreOf(w, showtime).seats, reqs, reserveMs, now) {
      if insertSucceeds {
        HoldInserted(w, b, showtime, reqs, reserveMs, now, insertMs);
      } else {
        HoldNotInserted(w, b, showtime, reqs, reserveMs, now, insertMs);
      }
    }
  }

  lemma HoldTakesSeats(s: Store, b: BookingId, h: int, reqs: seq<Request>, now: int)
    requires ReserveOutcome(s, b, h, reqs, now).Reserved?
    ensures Takes(s.seats, ReserveStore(s, b, h, reqs, now).seats, b, reqs, h)
  {
    forall k | k in s.seats
      ensures k !in Ids(reqs) ==> ReserveStore(s, b, h, reqs, now).seats[k] == s.seats[k]
      ensures forall i: nat :: LastNaming(reqs, k, i) ==>
                ReserveStore(s, b, h, reqs, now).seats[k] == Held(reqs[i].seatType, b, h)
    {
      ReservedSeats(s, b, h, reqs, now, k);
    }
  }

  lemma UndoneSeat(s: Store, b: BookingId, h: int, reqs: seq<Request>, now: int, k: SeatId)
    requires b != [] && k in s.seats && ReserveOutcome(s, b, h, reqs, now).Reserved?
    ensures var seats' := ReleaseStore(ReserveStore(s, b, h, reqs, now), b, Ids(reqs)).seats;
            && k in seats' && (k in Ids(reqs) ==> seats'[k].Available?) && (k !in Ids(reqs) ==> seats'[k] == s.seats[k])
  {
    ReservedSeats(s, b, h, reqs, now, k);
    ReleasedSeats(ReserveStore(s, b, h, reqs, now), b, Ids(reqs), k);
  }

  lemma UndoneStores(
    w: World, b: BookingId, showtime: ShowtimeId, reqs: seq<Request>, reserveMs: int, now: int, insertMs: int)
    requires b != [] && b !in w.pc && CanHold(StoreOf(w, showtime).seats, reqs, reserveMs, now)
    ensures showtime in w.stores
    ensures var t := ReserveStore(w.stores[showtime], b, reserveMs / 1000 + HOLD_SECONDS, reqs, now);
            HoldRun(w, b, showtime, reqs, reserveMs, now, insertMs, false).stores ==
            w.stores[showtime := ReleaseStore(t, b, Ids(reqs))]
  {
    HoldGrantedIff(StoreOf(w, showtime), b, reqs, reserveMs, now);
  }

  /** When the insert fails, the seats that were taken are available again and the others are as they were. */
  lemma FailedInsertEffect(
    w: World, b: BookingId, showtime: ShowtimeId, reqs: seq<Request>,
    reserveMs: int, now: int, insertMs: int, k: SeatId)
    requires b != [] && b !in w.pc && CanHold(StoreOf(w, showtime).seats, reqs, reserveMs, now)
    requires k in StoreOf(w, showtime).seats
    ensures var stores' := HoldRun(w, b, showtime, reqs, reserveMs, now, insertMs, false).stores;
            && OnlyIn(w.stores, stores', showtime) && showtime in stores' && k in stores'[showtime].seats
            && (k in Ids(reqs) ==> stores'[showtime].seats[k].Available?)
            && (k !in Ids(reqs) ==> stores'[showtime].seats[k] == w.stores[showtime].seats[k])
  {
    UndoneStores(w, b, showtime, reqs, reserveMs, now, insertMs);
    HoldGrantedIff(StoreOf(w, showtime), b, reqs, reserveMs, now);
    UndoneSeat(w.stores[showtime], b, reserveMs / 1000 + HOLD_SECONDS, reqs, now, k);
  }

  // ----- cancelBooking -----

  /** Only a pending booking is touched: it becomes cancelled and its seats, held or booked, become available. */
  lemma CancelEffect(w: World, b: BookingId)
    requires b != [] && b !in w.pc
    ensures var u := CancelRun(w, b);
            if b in w.bookings && w.bookings[b].status == BookingPending then
              && u.bookings == w.bookings[b := w.bookings[b].(status := BookingCancelled)]
              && u.payments == w.payments && u.pc == w.pc
              && Frees(w.stores, u.stores, w.bookings[b].showtime, b, SeatIds(w, b))
            else u == w
  {
    if b in w.bookings {
      ReleaseFrees(w, w.bookings[b].showtime, b, SeatIds(w, b));
      assert w.pc[b := CancelFound][b := CancelReleased] - {b} == w.pc;
    }
  }

  // ----- handleWebhook -----

  /** The listed live holds of `b` become booked, and nothing else changes, the counter included. */
  ghost predicate Books(
    stores: Stores, stores': Stores, showtime: ShowtimeId, b: BookingId, ids: seq<SeatId>, now: int)
  {
    && OnlyIn(stores, stores', showtime)
    && (showtime in stores ==>
          var s, t := stores[showtime], stores'[showtime];
          && t.seats.Keys == s.seats.Keys && t.available == s.available
          && forall k :: k in s.seats ==>
               t.seats[k] ==
               if k in ids && LiveHold(s.seats, b, k, now) then Booked(s.seats[k].seatType, b) else s.seats[k])
  }

  lemma ConfirmBooks(w: World, showtime: ShowtimeId, b: BookingId, ids: seq<SeatId>, now: int)
    requires b != []
    ensures Books(w.stores, Script(w, showtime, Confirm(b, ids), now).stores, showtime, b, ids, now)
  {
    if showtime in w.stores {
      forall k | k in w.stores[showtime].seats
        ensures var s := w.stores[showtime];
                ConfirmStore(s, b, ids, now).seats[k] ==
                if k in ids && LiveHold(s.seats, b, k, now) then Booked(s.seats[k].seatType, b) else s.seats[k]
      {
        ConfirmedSeats(w.stores[showtime], b, ids, now, k);
      }
    }
  }

  /** All seats of the record are distinct live holds of the booking, and there is at least one. */
  predicate CanConfirm(w: World, b: BookingId, now: int)
    requires b in w.bookings
  {
    var ids := SeatIds(w, b);
    && ids != [] && Distinct(ids)
    && forall id :: id in ids ==> LiveHold(StoreOf(w, w.bookings[b].showtime).seats, b, id, now)
  }

  predicate CanRelease(w: World, b: BookingId)
    requires b in w.bookings
  {
    var ids := SeatIds(w, b);
    ids != [] && Distinct(ids) && forall id :: id in ids ==> Owned(StoreOf(w, w.bookings[b].showtime).seats, b, id)
  }

  lemma ConfirmRunEffect(w: World, b: BookingId, now: int)
    requires b != [] && b in w.bookings && b in w.pc && w.pc[b].HookCompleted?
    ensures var u := ConfirmRun(w, b, now);
            && u.payments == w.payments && u.pc == w.pc - {b}
            && Books(w.stores, u.stores, w.bookings[b].showtime, b, SeatIds(w, b), now)
            && (ConfirmWillDo(w, b, now) <==> CanConfirm(w, b, now))
            && u.bookings ==
               if CanConfirm(w, b, now) then w.bookings[b := w.bookings[b].(status := BookingConfirmed)] else w.bookings
  {
    var showtime, ids := w.bookings[b].showtime, SeatIds(w, b);
    ConfirmSucceeds(StoreOf(w, showtime), b, ids, now);
    ConfirmBooks(w, showtime, b, ids, now);
  }

  lemma ReleaseRunEffect(w: World, b: BookingId)
    requires b != [] && b in w.bookings && b in w.pc && w.pc[b].HookFailed?
    ensures var u := ReleaseRun(w, b);
            && u.payments == w.payments && u.pc == w.pc - {b}
            && Frees(w.stores, u.stores, w.bookings[b].showtime, b, SeatIds(w, b))
            && (ReleaseWillDo(w, b) <==> CanRelease(w, b))
            && u.bookings ==
               if CanRelease(w, b) then w.bookings[b := w.bookings[b].(status := BookingCancelled)] else w.bookings
  {
    var showtime, ids := w.bookings[b].showtime, SeatIds(w, b);
    ReleaseSucceeds(StoreOf(w, showtime), b, ids);
    ReleaseFrees(w, showtime, b, ids);
  }

  /**
   A webhook on an open payment. Success completes the payment, books the live holds of its booking, and confirms the
   booking exactly when those are all its seats; failure fails the payment, frees the booking's seats, and cancels the
   booking exactly when all of them were its own; a pending notification changes nothing, and so does any
   notification on a completed payment.
   */
  lemma HookEffect(w: World, p: PaymentId, status: HookStatus, now: int)
    requires p in w.payments && w.payments[p].booking in w.bookings
    requires w.payments[p].booking != [] && w.payments[p].booking !in w.pc
    ensures var u, b := HookRun(w, p, status, now), w.payments[p].booking;
            var showtime, ids := w.bookings[b].showtime, SeatIds(w, b);
            && u.pc == w.pc
            && (w.payments[p].status == PaymentCompleted || status == HookPending ==> u == w)
            && (w.payments[p].status != PaymentCompleted && status == HookSuccess ==>
                  && u.payments == w.payments[p := w.payments[p].(status := PaymentCompleted)]
                  && Books(w.stores, u.stores, showtime, b, ids, now)
                  && u.bookings == if CanConfirm(w, b, now)
                                   then w.bookings[b := w.bookings[b].(status := BookingConfirmed)] else w.bookings)
            && (w.payments[p].status != PaymentCompleted && status == HookFailure ==>
                  && u.payments == w.payments[p := w.payments[p].(status := PaymentFailed)]
                  && Frees(w.stores, u.stores, showtime, b, ids)
                  && u.bookings == if CanRelease(w, b)
                                   then w.bookings[b := w.bookings[b].(status := BookingCancelled)] else w.bookings)
  {
    var b := w.payments[p].booking;
    if w.payments[p].status != PaymentCompleted && status != HookPending {
      var u := HookUpdateNext(Goto(w, b, HookFound(p, status.HookSuccess?)), b);
      assert u.pc - {b} == w.pc;
      if status == HookSuccess {
        ConfirmRunEffect(u, b, now);
      } else {
        ReleaseRunEffect(u, b);
      }
    }
  }

  // ----- releaseExpiredHolds -----

  /** The list the job works through is what its contract says, and nothing on it has an operation in flight. */
  ghost predicate JobList(w: World, order: seq<BookingId>, clockMs: int) {
    && Distinct(order) && Elems(order) == DueBookings(w, clockMs)
    && [] !in w.bookings && forall b :: b in order ==> b !in w.pc
  }

  predicate Overdue(w: World, b: BookingId, clockMs: int) {
    b in w.bookings && w.bookings[b].status == BookingPending && w.bookings[b].holdExpiresAt < clockMs
  }

  /** So what the method does on its own list is a run of enabled steps. */
  lemma JobIsSteps(w: World, order: seq<BookingId>, clockMs: int, now: int)
    requires JobList(w, order, clockMs)
    ensures Follows(w, ExpireFinds(order, clockMs) + ExpireSaves(order, now), ExpireRun(w, order))
  {
    assert forall b :: b in order <==> b in Elems(order);
    ExpireRunIsSteps(w, order, clockMs, now);
  }

  /** After the job every booking that was pending and overdue is expired, and every other record is as it was. */
  lemma JobRecords(w: World, order: seq<BookingId>, clockMs: int)
    requires JobList(w, order, clockMs)
    ensures var u := ExpireRun(w, order);
            && u.bookings.Keys == w.bookings.Keys && u.payments == w.payments && u.pc == w.pc
            && (forall b :: b in w.bookings ==>
                  u.bookings[b] ==
                  if Overdue(w, b, clockMs) then w.bookings[b].(status := BookingExpired) else w.bookings[b])
            && forall b :: b in u.bookings && u.bookings[b].status == BookingPending ==>
                 u.bookings[b].holdExpiresAt >= clockMs
  {
    assert forall b :: b in order <==> b in Elems(order);
    ExpireRunIsSteps(w, order, clockMs, 0);
    EachSaves(FindDue(w, Elems(order)), order);
  }

  /** The seat belongs to one of the bookings, in its showtime and on its list. */
  predicate SeatOf(w: World, done: set<BookingId>, showtime: ShowtimeId, k: SeatId)
    requires showtime in w.stores && k in w.stores[showtime].seats
  {
    var seat := w.stores[showtime].seats[k];
    && !seat.Available? && seat.owner in done && seat.owner in w.bookings
    && w.bookings[seat.owner].showtime == showtime && k in SeatIds(w, seat.owner)
  }

  /** Exactly the seats of the `done` bookings have become available. */
  ghost predicate FreedOf(w: World, stores': Stores, done: set<BookingId>) {
    && stores'.Keys == w.stores.Keys
    && forall sh :: sh in w.stores ==>
         && stores'[sh].seats.Keys == w.stores[sh].seats.Keys
         && forall k :: k in w.stores[sh].seats ==>
              stores'[sh].seats[k] ==
              if SeatOf(w, done, sh, k) then Available(w.stores[sh].seats[k].seatType) else w.stores[sh].seats[k]
  }

  lemma FreedOneMore(w: World, u: World, done: set<BookingId>, b: BookingId)
    requires FreedOf(w, u.stores, done) && b in w.bookings && b != [] && b !in done
    requires b in u.bookings && u.bookings[b] == w.bookings[b]
    ensures FreedOf(w, ExpireStep(u, b).stores, done + {b})
  {
    ReleaseFrees(u, u.bookings[b].showtime, b, SeatIds(u, b));
    var stores' := ExpireStep(u, b).stores;
    assert Frees(u.stores, stores', w.bookings[b].showtime, b, SeatIds(w, b));
    forall sh, k | sh in w.stores && k in w.stores[sh].seats
      ensures stores'[sh].seats[k] ==
              if SeatOf(w, done + {b}, sh, k) then Available(w.stores[sh].seats[k].seatType) else w.stores[sh].seats[k]
    {
    }
  }

  lemma {:induction false} EachFrees(w: World, order: seq<BookingId>, due: set<BookingId>)
    requires Distinct(order) && [] !in w.bookings && Elems(order) <= due
    requires forall b :: b in order ==> Idle(w, b)
    ensures FreedOf(w, ExpireEach(FindDue(w, due), order).stores, Elems(order))
  {
    if order != [] {
      var n := |order| - 1;
      ElemsLast(order);
      EachFrees(w, order[..n], due);
      ExpireEachIsSteps(w, order[..n], due, 0);
      assert order[n] in order && order[n] !in order[..n];
      FreedOneMore(w, ExpireEach(FindDue(w, due), order[..n]), Elems(order[..n]), order[n]);
    }
  }

  /** The job frees the seats of overdue pending bookings and no others: everybody else keeps every seat as it is. */
  lemma JobSeats(w: World, order: seq<BookingId>, clockMs: int, showtime: ShowtimeId, k: SeatId)
    requires JobList(w, order, clockMs) && showtime in w.stores && k in w.stores[showtime].seats
    ensures var seat, u := w.stores[showtime].seats[k], ExpireRun(w, order);
            && showtime in u.stores && k in u.stores[showtime].seats
            && u.stores[showtime].seats[k] ==
               if !seat.Available? && Overdue(w, seat.owner, clockMs) &&
                  w.bookings[seat.owner].showtime == showtime && k in SeatIds(w, seat.owner)
               then Available(seat.seatType) else seat
  {
    assert forall b :: b in order <==> b in Elems(order);
    EachFrees(w, order, Elems(order));
  }
}
