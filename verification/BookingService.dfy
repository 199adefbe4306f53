/**
 `BookingService` and `PaymentService` as code: each method performs its Mongo accesses and script calls in
 the source's order. Its contract says what those accesses, made one after the other, do to the world; that
 they are enabled protocol steps is proved in BookingRuns.
 */
module BookingService {
  import opened Basics
  import opened SeatModel
  import opened SeatArguments
  import opened SeatScripts
  import opened SeatRuns
  import opened BookingProtocol
  import SeatMap

  datatype HoldError = InvalidSeat(id: SeatId) | SeatsNotAvailable(reply: ReserveReply) | BookingFailed

  datatype CancelError = CancelNotFound | CannotBeCancelled(status: BookingStatus)

  datatype PayError = PayNotFound | PayNotPending | PayHoldExpired | AlreadyPaid | PayDuplicate

  datatype PayReply = PaymentExists(payment: PaymentId) | PaymentCreated(payment: PaymentId)

  datatype HookStatus = HookSuccess | HookFailure | HookPending

  datatype HookReply = HookNotFound | HookAlreadyProcessed | HookMarkedFailed | HookConfirmed | HookIgnored

  class BookingBackend {
    var stores: map<ShowtimeId, Store>
    var bookings: map<BookingId, Booking>
    var payments: map<PaymentId, Payment>
    ghost var inflight: map<BookingId, Pc>

    ghost function Current(): World
      reads this
    {
      World(stores, bookings, payments, inflight)
    }

    // ----- script calls -----

    method ReserveIn(showtime: ShowtimeId, reqs: seq<Request>, b: BookingId, clockMs: int, now: int)
      returns (reply: ReserveReply)
      requires AllPlain(reqs)
      modifies `stores
      ensures reply == ReserveOutcome(StoreOf(old(Current()), showtime), b, clockMs / 1000 + HOLD_SECONDS, reqs, now)
      ensures Current() == Script(old(Current()), showtime, Reserve(b, clockMs / 1000 + HOLD_SECONDS, reqs), now)
    {
      var redis := new SeatStore.At(if showtime in stores then stores[showtime] else Store(map[], 0));
      PrintedIsGiven(redis.Snapshot(), b, clockMs / 1000 + HOLD_SECONDS, reqs, now);
      reply := redis.ReserveSeats(reqs, b, clockMs, HOLD_SECONDS, now);
      if showtime in stores {
        stores := stores[showtime := redis.Snapshot()];
      }
    }

    method ConfirmIn(showtime: ShowtimeId, b: BookingId, ids: seq<SeatId>, now: int) returns (reply: BatchReply)
      modifies `stores
      ensures reply == ConfirmOutcome(StoreOf(old(Current()), showtime), b, ids, now)
      ensures Current() == Script(old(Current()), showtime, Confirm(b, ids), now)
    {
      var redis := new SeatStore.At(if showtime in stores then stores[showtime] else Store(map[], 0));
      reply := redis.Confirm(b, ids, now);
      if showtime in stores {
        stores := stores[showtime := redis.Snapshot()];
      }
    }

    method ReleaseIn(showtime: ShowtimeId, b: BookingId, ids: seq<SeatId>) returns (reply: BatchReply)
      modifies `stores
      ensures reply == ReleaseOutcome(StoreOf(old(Current()), showtime), b, ids)
      ensures Current() == Script(old(Current()), showtime, Release(b, ids), 0)
    {
      var redis := new SeatStore.At(if showtime in stores then stores[showtime] else Store(map[], 0));
      reply := redis.Release(b, ids);
      if showtime in stores {
        stores := stores[showtime := redis.Snapshot()];
      }
    }

    // ----- holdSeats -----

    /** `prepareSeatInfos`: the types come from the showtime document, and an unknown seat is an error. */
    method PrepareSeatInfos(catalog: map<SeatId, Str>, ids: seq<SeatId>) returns (r: Result<seq<Request>, HoldError>)
      ensures r.Ok? <==> forall i :: 0 <= i < |ids| ==> ids[i] in catalog
      ensures r.Ok? ==> Ids(r.value) == ids
      ensures r.Ok? ==>
                forall i :: 0 <= i < |ids| ==> r.value[i].seatType == SeatMap.TypeOrDefault(catalog[ids[i]])
      ensures r.Err? ==>
                exists i :: 0 <= i < |ids| && r.error == InvalidSeat(ids[i]) && ids[i] !in catalog &&
                            forall j :: 0 <= j < i ==> ids[j] in catalog
    {
      var infos: seq<Request> := [];
      for i := 0 to |ids|
        invariant |infos| == i
        invariant forall j :: 0 <= j < i ==>
                    && ids[j] in catalog && infos[j].id == ids[j]
                    && infos[j].seatType == SeatMap.TypeOrDefault(catalog[ids[j]])
      {
        if ids[i] !in catalog {
          return Err(InvalidSeat(ids[i]));
        }
        infos := infos + [Request(ids[i], SeatMap.TypeOrDefault(catalog[ids[i]]))];
      }
      return Ok(infos);
    }

    /**
     Reserve in Redis, then insert in Mongo; when the insert fails, release what was reserved. The insert's
     outcome, the fresh booking id and the clock readings are parameters.
     */
    method HoldSeats(
      b: BookingId, showtime: ShowtimeId, catalog: map<SeatId, Str>, ids: seq<SeatId>,
      reserveMs: int, now: int, insertMs: int, insertSucceeds: bool)
      returns (r: Result<Booking, HoldError>, ghost reqs: seq<Request>)
      requires b !in bookings && b !in inflight // the id is fresh
      requires forall i :: 0 <= i < |ids| ==> Plain(ids[i])
      requires forall k :: k in catalog ==> Plain(SeatMap.TypeOrDefault(catalog[k]))
      modifies this
      ensures if exists i :: 0 <= i < |ids| && ids[i] !in catalog
              then Current() == old(Current()) && r.Err? && r.error.InvalidSeat? && r.error.id !in catalog
              else && Ids(reqs) == ids
                   && (forall i :: 0 <= i < |ids| ==> reqs[i].seatType == SeatMap.TypeOrDefault(catalog[ids[i]]))
                   && r == HoldReply(old(Current()), b, showtime, reqs, reserveMs, now, insertMs, insertSucceeds)
                   && Current() == HoldRun(old(Current()), b, showtime, reqs, reserveMs, now, insertMs, insertSucceeds)
    {
      reqs := [];
      var prepared := PrepareSeatInfos(catalog, ids);
      if prepared.Err? {
        return Err(prepared.error), [];
      }
      reqs := prepared.value;
      assert forall i :: 0 <= i < |ids| ==> reqs[i].id == Ids(reqs)[i];
      r := HoldPrepared(b, showtime, prepared.value, reserveMs, now, insertMs, insertSucceeds);
    }

    /** `holdSeats` once the seat types are known. */
    method HoldPrepared(
      b: BookingId, showtime: ShowtimeId, reqs: seq<Request>,
      reserveMs: int, now: int, insertMs: int, insertSucceeds: bool)
      returns (r: Result<Booking, HoldError>)
      requires b !in bookings && b !in inflight && AllPlain(reqs)
      modifies this
      ensures Current() == HoldRun(old(Current()), b, showtime, reqs, reserveMs, now, insertMs, insertSucceeds)
      ensures r == HoldReply(old(Current()), b, showtime, reqs, reserveMs, now, insertMs, insertSucceeds)
    {
      var reply := ReserveIn(showtime, reqs, b, reserveMs, now);
      if !reply.Reserved? {
        return Err(SeatsNotAvailable(reply));
      }
      inflight := inflight[b := HoldReserved(showtime, reqs, reserveMs / 1000 + HOLD_SECONDS)];
      if insertSucceeds {
        var booking := Booking(showtime, reqs, insertMs + HOLD_MS, BookingPending);
        bookings := bookings[b := booking];
        inflight := inflight - {b};
        return Ok(booking);
      }
      inflight := inflight[b := HoldRollback(showtime, reqs)];
      var _ := ReleaseIn(showtime, b, Ids(reqs));
      inflight := inflight - {b};
      return Err(BookingFailed);
    }

    // ----- cancelBooking and releaseExpiredHolds -----

    /** The release's outcome is not looked at: the booking is cancelled in any case. */
    method CancelBooking(b: BookingId) returns (r: Option<CancelError>)
      requires b !in inflight
      modifies this
      ensures Current() == CancelRun(old(Current()), b)
      ensures payments == old(payments) && inflight == old(inflight) && (r.Some? ==> Current() == old(Current()))
      ensures r.None? ==>
                b in old(bookings) && bookings == old(bookings)[b := old(bookings)[b].(status := BookingCancelled)]
      ensures r == if b !in old(bookings) then Some(CancelNotFound)
                   else if !old(bookings)[b].status.BookingPending?
                   then Some(CannotBeCancelled(old(bookings)[b].status))
                   else None
    {
      if b !in bookings {
        return Some(CancelNotFound);
      }
      var booking := bookings[b];
      if !booking.status.BookingPending? {
        return Some(CannotBeCancelled(booking.status));
      }
      inflight := inflight[b := CancelFound];
      var _ := ReleaseIn(booking.showtime, b, Ids(booking.reqs));
      inflight := inflight[b := CancelReleased];
      bookings := bookings[b := booking.(status := BookingCancelled)];
      inflight := inflight - {b};
      return None;
    }

    /**
     The cron job: one query for every pending booking past its deadline, then each of the documents it returned
     is released and saved as expired, in some order.
     */
    method ReleaseExpiredHolds(clockMs: int) returns (ghost order: seq<BookingId>)
      requires forall b :: b in DueBookings(Current(), clockMs) ==> b !in inflight
      modifies this
      ensures Distinct(order) && Elems(order) == DueBookings(old(Current()), clockMs)
      ensures Current() == ExpireRun(old(Current()), order)
      ensures bookings.Keys == old(bookings).Keys && payments == old(payments)
      ensures forall b :: b in bookings ==>
                bookings[b] == if old(bookings)[b].status == BookingPending && old(bookings)[b].holdExpiresAt < clockMs
                               then old(bookings)[b].(status := BookingExpired)
                               else old(bookings)[b]
    {
      var found := map b | b in bookings && bookings[b].status.BookingPending? && bookings[b].holdExpiresAt < clockMs ::
                     bookings[b];
      inflight := inflight + map b | b in found :: ExpireFound;
      ghost var w := Current();
      order := ExpireAll(found);
      EachSaves(w, order);
    }

    /** The loop of the cron job over the documents of its query. */
    method ExpireAll(found: map<BookingId, Booking>) returns (ghost order: seq<BookingId>)
      requires forall b :: b in found ==> b in bookings && bookings[b] == found[b]
      modifies this
      ensures Distinct(order) && Elems(order) == found.Keys
      ensures Current() == ExpireEach(old(Current()), order)
    {
      ghost var w := Current();
      var todo := found.Keys;
      order := [];
      while todo != {}
        invariant todo <= found.Keys && Distinct(order) && Elems(order) == found.Keys - todo
        invariant Current() == ExpireEach(w, order)
        invariant forall b :: b in todo ==> b in bookings && bookings[b] == found[b]
        decreases todo
      {
        var b :| b in todo;
        ghost var prev := order;
        assert b !in Elems(prev);
        ExpireOne(b, found[b]);
        order := prev + [b];
        assert order[..|prev|] == prev;
        assert Elems(order) == Elems(prev) + {b};
        todo := todo - {b};
      }
    }

    /** The loop body of the cron job, on a document of the query. */
    method ExpireOne(b: BookingId, booking: Booking)
      requires b in bookings && bookings[b] == booking
      modifies this
      ensures Current() == ExpireStep(old(Current()), b)
      ensures bookings == old(bookings)[b := booking.(status := BookingExpired)]
    {
      var _ := ReleaseIn(booking.showtime, b, Ids(booking.reqs));
      inflight := inflight[b := ExpireReleased];
      bookings := bookings[b := booking.(status := BookingExpired)];
      inflight := inflight - {b};
    }

    // ----- createPayment -----

    /** Steps 4 to 7: validate, look for a live payment, create, call the gateway. Bookings and seats are only read. */
    method CreatePayment(b: BookingId, p: PaymentId, tx: Str, clockMs: int, createSucceeds: bool)
      returns (r: Result<PayReply, PayError>)
      requires b !in inflight && p !in payments
      modifies `payments, `inflight
      ensures Current() == PayRun(old(Current()), b, p, tx, clockMs, createSucceeds)
      ensures r == Err(PayNotFound) <==> b !in old(bookings)
      ensures r == Err(PayNotPending) <==> b in old(bookings) && !old(bookings)[b].status.BookingPending?
      ensures r == Err(PayHoldExpired) <==>
              b in old(bookings) && old(bookings)[b].status.BookingPending? && old(bookings)[b].holdExpiresAt < clockMs
      ensures inflight == old(inflight)
      ensures if r in {Err(PayNotFound), Err(PayNotPending), Err(PayHoldExpired)}
              then payments == old(payments)
              else PayReplyFits(old(payments), payments, b, p, tx, createSucceeds, r)
    {
      if b !in bookings {
        return Err(PayNotFound);
      }
      if !bookings[b].status.BookingPending? {
        return Err(PayNotPending);
      }
      if bookings[b].holdExpiresAt < clockMs {
        return Err(PayHoldExpired);
      }
      ghost var w := Current();
      inflight := inflight[b := PayValidated];
      r := PayValid(b, p, tx, createSucceeds);
      assert inflight == w.pc;
    }

    /** The booking is valid: an existing live payment is returned or reported, otherwise one is created. */
    method PayValid(b: BookingId, p: PaymentId, tx: Str, createSucceeds: bool) returns (r: Result<PayReply, PayError>)
      requires p !in payments
      modifies `payments, `inflight
      ensures Current() == if HasLivePayment(old(Current()), b) || !createSucceeds then Finish(old(Current()), b)
                           else PayInsertRun(Goto(old(Current()), b, PayUnclaimed), b, p, tx)
      ensures PayReplyFits(old(payments), payments, b, p, tx, createSucceeds, r)
    {
      var existing := FindLive(b);
      if existing.Some? {
        inflight := inflight - {b};
        if payments[existing.value].status.PaymentCompleted? {
          return Err(AlreadyPaid);
        }
        return Ok(PaymentExists(existing.value));
      }
      inflight := inflight[b := PayUnclaimed];
      if !createSucceeds {
        inflight := inflight - {b};
        return Err(PayDuplicate);
      }
      InsertPayment(b, p, tx);
      return Ok(PaymentCreated(p));
    }

    /** Creates the record, calls the gateway, and stores its transaction id with status `processing`. */
    method InsertPayment(b: BookingId, p: PaymentId, tx: Str)
      requires p !in payments
      modifies `payments, `inflight
      ensures payments == old(payments)[p := Payment(b, PaymentProcessing, Some(tx))]
      ensures Current() == PayInsertRun(old(Current()), b, p, tx)
    {
      payments := payments[p := Payment(b, PaymentPending, None)];
      inflight := inflight[b := PayCreated(p)];
      payments := payments[p := payments[p].(status := PaymentProcessing, transaction := Some(tx))];
      inflight := inflight - {b};
    }

    /** A payment of the booking in status pending, processing or completed. */
    method FindLive(b: BookingId) returns (found: Option<PaymentId>)
      ensures found.Some? <==> HasLivePayment(Current(), b)
      ensures found.Some? ==>
                found.value in payments && payments[found.value].booking == b && Live(payments[found.value])
    {
      var live := set q | q in payments && payments[q].booking == b && Live(payments[q]);
      if live == {} {
        assert forall q :: q in payments && payments[q].booking == b ==> q !in live;
        return None;
      }
      var q :| q in live;
      return Some(q);
    }

    // ----- handleWebhook -----

    /** Neither this method nor the next looks at the booking's status. */
    method ConfirmSeatsAfterPayment(b: BookingId, now: int) returns (confirmed: bool)
      requires b in inflight && inflight[b].HookCompleted?
      modifies `stores, `bookings, `inflight
      ensures Current() == ConfirmRun(old(Current()), b, now)
      ensures confirmed == ConfirmWillDo(old(Current()), b, now)
    {
      if b !in bookings {
        inflight := inflight - {b};
        return false;
      }
      var booking := bookings[b];
      ghost var p := inflight[b].payment;
      var reply := ConfirmIn(booking.showtime, b, Ids(booking.reqs), now);
      if !BatchOk(reply) {
        inflight := inflight - {b};
        return false;
      }
      inflight := inflight[b := ConfirmDone(p)];
      bookings := bookings[b := booking.(status := BookingConfirmed)];
      inflight := inflight - {b};
      return true;
    }

    method ReleaseSeatsAfterPaymentFailure(b: BookingId) returns (released: bool)
      requires b in inflight && inflight[b].HookFailed?
      modifies `stores, `bookings, `inflight
      ensures Current() == ReleaseRun(old(Current()), b)
      ensures released == ReleaseWillDo(old(Current()), b)
    {
      if b !in bookings {
        inflight := inflight - {b};
        return false;
      }
      var booking := bookings[b];
      var reply := ReleaseIn(booking.showtime, b, Ids(booking.reqs));
      if !BatchOk(reply) {
        inflight := inflight - {b};
        return false;
      }
      inflight := inflight[b := ReleaseDone];
      bookings := bookings[b := booking.(status := BookingCancelled)];
      inflight := inflight - {b};
      return true;
    }

    method HandleWebhook(tx: Str, status: HookStatus, now: int) returns (r: HookReply)
      requires forall p, q | p in payments && q in payments && payments[p].transaction.Some? ::
                 payments[p].transaction == payments[q].transaction ==> p == q
      requires forall p :: p in payments && payments[p].transaction == Some(tx) ==> payments[p].booking !in inflight
      modifies this
      ensures r.HookNotFound? <==> forall p :: p in old(payments) ==> old(payments)[p].transaction != Some(tx)
      ensures r.HookNotFound? || status.HookPending? ==> Current() == old(Current())
      ensures forall p :: p in old(payments) && old(payments)[p].transaction == Some(tx) ==>
                && Current() == HookRun(old(Current()), p, status, now)
                && r == HookAnswer(old(payments)[p], status)
                && (old(payments)[p].status.PaymentCompleted? ==> Current() == old(Current()))
    {
      var found := set p | p in payments && payments[p].transaction == Some(tx);
      if found == {} {
        assert forall p :: p in payments ==> p !in found;
        return HookNotFound;
      }
      var p :| p in found;
      r := HandleFound(p, status, now);
    }

    method HandleFound(p: PaymentId, status: HookStatus, now: int) returns (r: HookReply)
      requires p in payments && payments[p].booking !in inflight
      modifies this
      ensures Current() == HookRun(old(Current()), p, status, now)
      ensures r == HookAnswer(old(payments)[p], status)
      ensures old(payments)[p].status.PaymentCompleted? || status.HookPending? ==> Current() == old(Current())
    {
      var payment := payments[p];
      if payment.status.PaymentCompleted? {
        return HookAlreadyProcessed;
      }
      var b := payment.booking;
      match status
      case HookFailure =>
        inflight := inflight[b := HookFound(p, false)];
        payments := payments[p := payment.(status := PaymentFailed)];
        inflight := inflight[b := HookFailed(p)];
        var _ := ReleaseSeatsAfterPaymentFailure(b);
        return HookMarkedFailed;
      case HookSuccess =>
        inflight := inflight[b := HookFound(p, true)];
        payments := payments[p := payment.(status := PaymentCompleted)];
        inflight := inflight[b := HookCompleted(p)];
        var _ := ConfirmSeatsAfterPayment(b, now);
        return HookConfirmed;
      case HookPending =>
        return HookIgnored;
    }
  }

  // ----- what the methods do, as compositions of protocol steps -----

  function HoldRun(
    w: World, b: BookingId, showtime: ShowtimeId, reqs: seq<Request>,
    reserveMs: int, now: int, insertMs: int, insertSucceeds: bool): World
    requires b !in w.pc
  {
    var u := HoldNext(w, b, showtime, reqs, reserveMs, now);
    if b !in u.pc then u
    else if insertSucceeds then HoldInsertNext(u, b, insertMs)
    else HoldUndoNext(Goto(u, b, HoldRollback(showtime, reqs)), b)
  }

  function HoldReply(
    w: World, b: BookingId, showtime: ShowtimeId, reqs: seq<Request>,
    reserveMs: int, now: int, insertMs: int, insertSucceeds: bool): Result<Booking, HoldError>
  {
    var reply := ReserveOutcome(StoreOf(w, showtime), b, reserveMs / 1000 + HOLD_SECONDS, reqs, now);
    if !reply.Reserved? then Err(SeatsNotAvailable(reply))
    else if insertSucceeds then Ok(Booking(showtime, reqs, insertMs + HOLD_MS, BookingPending))
    else Err(BookingFailed)
  }

  function ReleaseAndSave(w: World, b: BookingId, released: Pc, status: BookingStatus): World
    requires b in w.bookings
  {
    Finish(SetStatus(Goto(ReleaseOwn(w, b), b, released), b, status), b)
  }

  function CancelRun(w: World, b: BookingId): World {
    if b in w.bookings && w.bookings[b].status.BookingPending?
    then ReleaseAndSave(Goto(w, b, CancelFound), b, CancelReleased, BookingCancelled)
    else w
  }

  function DueBookings(w: World, clockMs: int): set<BookingId> {
    set b | b in w.bookings && w.bookings[b].status.BookingPending? && w.bookings[b].holdExpiresAt < clockMs
  }

  /** The query of the cron job: everything it returns is in flight from then on. */
  function FindDue(w: World, due: set<BookingId>): World {
    w.(pc := w.pc + map b | b in due :: ExpireFound)
  }

  function ExpireStep(w: World, b: BookingId): World {
    if b in w.bookings then ReleaseAndSave(w, b, ExpireReleased, BookingExpired) else w
  }

  function ExpireEach(w: World, order: seq<BookingId>): World {
    if order == [] then w else ExpireStep(ExpireEach(w, order[..|order| - 1]), order[|order| - 1])
  }

  lemma {:induction false} EachSaves(w: World, order: seq<BookingId>)
    requires forall b :: b in Elems(order) ==> b in w.bookings
    ensures var u := ExpireEach(w, order);
            && u.bookings.Keys == w.bookings.Keys && u.payments == w.payments
            && forall b :: b in w.bookings ==>
                 u.bookings[b] == if b in Elems(order) then w.bookings[b].(status := BookingExpired) else w.bookings[b]
  {
    if order != [] {
      var n := |order| - 1;
      assert order == order[..n] + [order[n]];
      assert Elems(order) == Elems(order[..n]) + {order[n]};
      EachSaves(w, order[..n]);
    }
  }

  function ExpireRun(w: World, order: seq<BookingId>): World {
    ExpireEach(FindDue(w, Elems(order)), order)
  }

  /** Which reply a valid booking gets, from the payments before and after. */
  ghost predicate PayReplyFits(
    ps: map<PaymentId, Payment>, ps': map<PaymentId, Payment>,
    b: BookingId, p: PaymentId, tx: Str, createSucceeds: bool, r: Result<PayReply, PayError>)
  {
    match r
    case Ok(PaymentCreated(q)) =>
      && q == p && createSucceeds && ps' == ps[p := Payment(b, PaymentProcessing, Some(tx))]
      && forall x :: x in ps && ps[x].booking == b ==> ps[x].status.PaymentFailed?
    case Ok(PaymentExists(q)) =>
      && q in ps && ps[q].booking == b && (ps[q].status.PaymentPending? || ps[q].status.PaymentProcessing?)
      && ps' == ps
    case Err(AlreadyPaid) =>
      ps' == ps && exists q :: q in ps && ps[q].booking == b && ps[q].status.PaymentCompleted?
    case Err(PayDuplicate) =>
      && !createSucceeds && ps' == ps
      && forall x :: x in ps && ps[x].booking == b ==> ps[x].status.PaymentFailed?
    case Err(_) => false
  }

  function PayRun(w: World, b: BookingId, p: PaymentId, tx: Str, clockMs: int, createSucceeds: bool): World {
    if b !in w.bookings || !w.bookings[b].status.BookingPending? || w.bookings[b].holdExpiresAt < clockMs then w
    else
      var u := Goto(w, b, PayValidated);
      if HasLivePayment(u, b) || !createSucceeds then Finish(u, b)
      else PayInsertRun(Goto(u, b, PayUnclaimed), b, p, tx)
  }

  function PayInsertRun(w: World, b: BookingId, p: PaymentId, tx: Str): World {
    PayGatewayNext(Goto(SetPayment(w, p, Payment(b, PaymentPending, None)), b, PayCreated(p)), b, tx)
  }

  predicate ConfirmWillDo(w: World, b: BookingId, now: int) {
    b in w.bookings && BatchOk(ConfirmOutcome(StoreOf(w, w.bookings[b].showtime), b, SeatIds(w, b), now))
  }

  function ConfirmRun(w: World, b: BookingId, now: int): World
    requires b in w.pc && w.pc[b].HookCompleted?
  {
    if b !in w.bookings then Finish(w, b)
    else
      var u := ConfirmScriptNext(w, b, now);
      if b in u.pc then Finish(SetStatus(u, b, BookingConfirmed), b) else u
  }

  predicate ReleaseWillDo(w: World, b: BookingId) {
    b in w.bookings && BatchOk(ReleaseOutcome(StoreOf(w, w.bookings[b].showtime), b, SeatIds(w, b)))
  }

  function ReleaseRun(w: World, b: BookingId): World {
    if b !in w.bookings then Finish(w, b)
    else
      var u := ReleaseScriptNext(w, b);
      if b in u.pc then Finish(SetStatus(u, b, BookingCancelled), b) else u
  }

  function HookAnswer(payment: Payment, status: HookStatus): HookReply {
    if payment.status.PaymentCompleted? then HookAlreadyProcessed
    else match status
      case HookFailure => HookMarkedFailed
      case HookSuccess => HookConfirmed
      case HookPending => HookIgnored
  }

  function HookRun(w: World, p: PaymentId, status: HookStatus, now: int): World
    requires p in w.payments
  {
    var b := w.payments[p].booking;
    if w.payments[p].status.PaymentCompleted? || status.HookPending? then w
    else
      var u := HookUpdateNext(Goto(w, b, HookFound(p, status.HookSuccess?)), b);
      if status.HookSuccess? then ConfirmRun(u, b, now) else ReleaseRun(u, b)
  }
}
