/**
 The two-store protocol: Redis holds the seats, Mongo the booking and payment records, and every service
 operation is a sequence of atomic accesses to one of the two.

 A Step is one such access. `pc` remembers, for each booking with an operation in flight, how far that
 operation has come. Operations on one booking do not overlap (a new one is enabled only when `pc` has no
 entry for it); operations on different bookings interleave freely between steps. Times are step
 parameters and are not assumed to be ordered or synchronised.
 */
module BookingProtocol {
  import opened Basics
  import opened SeatModel
  import opened SeatRuns

  type ShowtimeId = Str
  type PaymentId = Str

  datatype BookingStatus = BookingPending | BookingConfirmed | BookingCancelled | BookingExpired

  /** `holdExpiresAt` is in milliseconds, the unit of the application clock. */
  datatype Booking = Booking(showtime: ShowtimeId, reqs: seq<Request>, holdExpiresAt: int, status: BookingStatus)

  datatype PaymentStatus = PaymentPending | PaymentProcessing | PaymentCompleted | PaymentFailed

  datatype Payment = Payment(booking: BookingId, status: PaymentStatus, transaction: Option<Str>)

  /** Where an operation in flight stands. */
  datatype Pc =
    | HoldReserved(showtime: ShowtimeId, reqs: seq<Request>, expire: int) // seats held, booking not inserted
    | HoldRollback(showtime: ShowtimeId, reqs: seq<Request>)              // insert failed, seats not released
    | CancelFound                                                       // read as pending
    | CancelReleased                                                    // seats released, status not saved
    | ExpireFound
    | ExpireReleased
    | PayValidated                                                      // booking read as pending and live
    | PayUnclaimed                                                      // no live payment found
    | PayCreated(payment: PaymentId)                                    // gateway not yet called
    | HookFound(payment: PaymentId, success: bool)                      // payment read as not completed
    | HookCompleted(payment: PaymentId)                                 // payment completed, seats not confirmed
    | HookFailed(payment: PaymentId)                                    // payment failed, seats not released
    | ConfirmDone(payment: PaymentId)                                   // script succeeded, status not saved
    | ReleaseDone                                                       // script succeeded, status not saved

  datatype World = World(
    stores: map<ShowtimeId, Store>,
    bookings: map<BookingId, Booking>,
    payments: map<PaymentId, Payment>,
    pc: map<BookingId, Pc>)

  const HOLD_SECONDS := 600
  const HOLD_MS := 600_000

  /** `t` is the application clock in milliseconds, `now` the Redis clock in seconds. */
  datatype Step =
    // holdSeats
    | Hold(b: BookingId, showtime: ShowtimeId, reqs: seq<Request>, t: int, now: int)
    | HoldInsert(b: BookingId, t: int)
    | HoldInsertFails(b: BookingId)
    | HoldUndo(b: BookingId)
    // cancelBooking
    | CancelFind(b: BookingId)
    | CancelScript(b: BookingId)
    | CancelSave(b: BookingId)
    // releaseExpiredHolds, for one of the bookings it found
    | ExpireFind(b: BookingId, t: int)
    | ExpireScript(b: BookingId, now: int)
    | ExpireSave(b: BookingId)
    // createPayment
    | PayValidate(b: BookingId, t: int)
    | PayLookup(b: BookingId)
    | PayCreate(b: BookingId, payment: PaymentId)
    | PayCreateFails(b: BookingId)
    | PayGateway(b: BookingId, transaction: Str)
    // handleWebhook, with confirmSeatsAfterPayment and releaseSeatsAfterPaymentFailure
    | HookFind(b: BookingId, payment: PaymentId, success: bool)
    | HookUpdate(b: BookingId)
    | ConfirmScript(b: BookingId, now: int)
    | ConfirmSave(b: BookingId)
    | ReleaseScript(b: BookingId)
    | ReleaseSave(b: BookingId)
    // cleanup, status read or extension of any showtime at any time
    | Environment(showtime: ShowtimeId, event: Event)

  function StoreOf(w: World, showtime: ShowtimeId): Store {
    if showtime in w.stores then w.stores[showtime] else Store(map[], 0)
  }

  /** Runs one script on one showtime; a showtime without a hash has nothing to change. */
  function Script(w: World, showtime: ShowtimeId, op: Op, now: int): World {
    if showtime in w.stores
    then w.(stores := w.stores[showtime := Apply(w.stores[showtime], Event(now, op))])
    else w
  }

  function Goto(w: World, b: BookingId, pc: Pc): World {
    w.(pc := w.pc[b := pc])
  }

  function Finish(w: World, b: BookingId): World {
    w.(pc := w.pc - {b})
  }

  function SetStatus(w: World, b: BookingId, status: BookingStatus): World
    requires b in w.bookings
  {
    w.(bookings := w.bookings[b := w.bookings[b].(status := status)])
  }

  function SetPayment(w: World, p: PaymentId, payment: Payment): World {
    w.(payments := w.payments[p := payment])
  }

  predicate Idle(w: World, b: BookingId) {
    b in w.bookings && b !in w.pc
  }

  predicate IdlePending(w: World, b: BookingId) {
    Idle(w, b) && w.bookings[b].status == BookingPending
  }

  predicate Live(p: Payment) {
    !p.status.PaymentFailed?
  }

  predicate HasLivePayment(w: World, b: BookingId) {
    exists p :: p in w.payments && w.payments[p].booking == b && Live(w.payments[p])
  }

  predicate Enabled(w: World, s: Step) {
    match s
    case Hold(b, _, _, _, _) => b != [] && b !in w.bookings && b !in w.pc
    case HoldInsert(b, _) => b in w.pc && w.pc[b].HoldReserved?
    case HoldInsertFails(b) => b in w.pc && w.pc[b].HoldReserved?
    case HoldUndo(b) => b in w.pc && w.pc[b].HoldRollback?
    case CancelFind(b) => IdlePending(w, b)
    case CancelScript(b) => b in w.pc && w.pc[b].CancelFound? && b in w.bookings
    case CancelSave(b) => b in w.pc && w.pc[b].CancelReleased? && b in w.bookings
    case ExpireFind(b, t) => IdlePending(w, b) && w.bookings[b].holdExpiresAt < t
    case ExpireScript(b, _) => b in w.pc && w.pc[b].ExpireFound? && b in w.bookings
    case ExpireSave(b) => b in w.pc && w.pc[b].ExpireReleased? && b in w.bookings
    case PayValidate(b, t) => IdlePending(w, b) && w.bookings[b].holdExpiresAt >= t
    case PayLookup(b) => b in w.pc && w.pc[b].PayValidated?
    case PayCreate(b, p) => b in w.pc && w.pc[b].PayUnclaimed? && p !in w.payments
    case PayCreateFails(b) => b in w.pc && w.pc[b].PayUnclaimed?
    case PayGateway(b, tx) =>
      && b in w.pc && w.pc[b].PayCreated? && w.pc[b].payment in w.payments
      && forall p :: p in w.payments ==> w.payments[p].transaction != Some(tx)
    case HookFind(b, p, _) =>
      && Idle(w, b) && p in w.payments && w.payments[p].booking == b
      && w.payments[p].transaction.Some? && !w.payments[p].status.PaymentCompleted?
    case HookUpdate(b) => b in w.pc && w.pc[b].HookFound? && w.pc[b].payment in w.payments
    case ConfirmScript(b, _) => b in w.pc && w.pc[b].HookCompleted? && b in w.bookings
    case ConfirmSave(b) => b in w.pc && w.pc[b].ConfirmDone? && b in w.bookings
    case ReleaseScript(b) => b in w.pc && w.pc[b].HookFailed? && b in w.bookings
    case ReleaseSave(b) => b in w.pc && w.pc[b].ReleaseDone? && b in w.bookings
    case Environment(_, e) => e.op.Cleanup? || e.op.Read? || e.op.Extend?
  }

  function SeatIds(w: World, b: BookingId): seq<SeatId>
    requires b in w.bookings
  {
    Ids(w.bookings[b].reqs)
  }

  /** The release script of booking `b` on its own seats. */
  function ReleaseOwn(w: World, b: BookingId): World
    requires b in w.bookings
  {
    Script(w, w.bookings[b].showtime, Release(b, SeatIds(w, b)), 0)
  }

  /** Reserves in Redis; a refusal ends the operation with no trace. */
  function HoldNext(w: World, b: BookingId, showtime: ShowtimeId, reqs: seq<Request>, t: int, now: int): World {
    var expire := t / 1000 + HOLD_SECONDS;
    if ReserveOutcome(StoreOf(w, showtime), b, expire, reqs, now).Reserved?
    then Goto(Script(w, showtime, Reserve(b, expire, reqs), now), b, HoldReserved(showtime, reqs, expire))
    else w
  }

  function HoldInsertNext(w: World, b: BookingId, t: int): World
    requires b in w.pc && w.pc[b].HoldReserved?
  {
    var booking := Booking(w.pc[b].showtime, w.pc[b].reqs, t + HOLD_MS, BookingPending);
    Finish(w.(bookings := w.bookings[b := booking]), b)
  }

  function HoldUndoNext(w: World, b: BookingId): World
    requires b in w.pc && w.pc[b].HoldRollback?
  {
    Finish(Script(w, w.pc[b].showtime, Release(b, Ids(w.pc[b].reqs)), 0), b)
  }

  function PayGatewayNext(w: World, b: BookingId, tx: Str): World
    requires b in w.pc && w.pc[b].PayCreated? && w.pc[b].payment in w.payments
  {
    var p := w.pc[b].payment;
    Finish(SetPayment(w, p, w.payments[p].(status := PaymentProcessing, transaction := Some(tx))), b)
  }

  /** The guarded update of the webhook: nothing is modified once the payment is completed. */
  function HookUpdateNext(w: World, b: BookingId): World
    requires b in w.pc && w.pc[b].HookFound? && w.pc[b].payment in w.payments
  {
    var HookFound(p, success) := w.pc[b];
    if w.payments[p].status.PaymentCompleted? then Finish(w, b)
    else if success
    then Goto(SetPayment(w, p, w.payments[p].(status := PaymentCompleted)), b, HookCompleted(p))
    else Goto(SetPayment(w, p, w.payments[p].(status := PaymentFailed)), b, HookFailed(p))
  }

  function ConfirmScriptNext(w: World, b: BookingId, now: int): World
    requires b in w.bookings && b in w.pc && w.pc[b].HookCompleted?
  {
    var showtime, ids := w.bookings[b].showtime, SeatIds(w, b);
    var w' := Script(w, showtime, Confirm(b, ids), now);
    if BatchOk(ConfirmOutcome(StoreOf(w, showtime), b, ids, now))
    then Goto(w', b, ConfirmDone(w.pc[b].payment))
    else Finish(w', b)
  }

  function ReleaseScriptNext(w: World, b: BookingId): World
    requires b in w.bookings
  {
    if BatchOk(ReleaseOutcome(StoreOf(w, w.bookings[b].showtime), b, SeatIds(w, b)))
    then Goto(ReleaseOwn(w, b), b, ReleaseDone)
    else Finish(ReleaseOwn(w, b), b)
  }

  function Next(w: World, s: Step): World
    requires Enabled(w, s)
  {
    match s
    case Hold(b, showtime, reqs, t, now) => HoldNext(w, b, showtime, reqs, t, now)
    case HoldInsert(b, t) => HoldInsertNext(w, b, t)
    case HoldInsertFails(b) => Goto(w, b, HoldRollback(w.pc[b].showtime, w.pc[b].reqs))
    case HoldUndo(b) => HoldUndoNext(w, b)
    case CancelFind(b) => Goto(w, b, CancelFound)
    case CancelScript(b) => Goto(ReleaseOwn(w, b), b, CancelReleased)
    case CancelSave(b) => Finish(SetStatus(w, b, BookingCancelled), b)
    case ExpireFind(b, _) => Goto(w, b, ExpireFound)
    case ExpireScript(b, _) => Goto(ReleaseOwn(w, b), b, ExpireReleased)
    case ExpireSave(b) => Finish(SetStatus(w, b, BookingExpired), b)
    case PayValidate(b, _) => Goto(w, b, PayValidated)
    case PayLookup(b) => if HasLivePayment(w, b) then Finish(w, b) else Goto(w, b, PayUnclaimed)
    case PayCreate(b, p) => Goto(SetPayment(w, p, Payment(b, PaymentPending, None)), b, PayCreated(p))
    case PayCreateFails(b) => Finish(w, b)
    case PayGateway(b, tx) => PayGatewayNext(w, b, tx)
    case HookFind(b, p, success) => Goto(w, b, HookFound(p, success))
    case HookUpdate(b) => HookUpdateNext(w, b)
    case ConfirmScript(b, now) => ConfirmScriptNext(w, b, now)
    case ConfirmSave(b) => Finish(SetStatus(w, b, BookingConfirmed), b)
    case ReleaseScript(b) => ReleaseScriptNext(w, b)
    case ReleaseSave(b) => Finish(SetStatus(w, b, BookingCancelled), b)
    case Environment(showtime, e) => Script(w, showtime, e.op, e.now)
  }

  // ----- runs -----

  /** Showtimes freshly initialised, no bookings, no payments, nothing in flight. */
  predicate Initial(w: World) {
    && (forall showtime :: showtime in w.stores ==> AllAvailable(w.stores[showtime]))
    && w.bookings == map[] && w.payments == map[] && w.pc == map[]
  }

  /** The world after a list of steps; a step that is not enabled is skipped, see Allowed. */
  function After(w: World, steps: seq<Step>): World {
    if steps == [] then w
    else
      var u := After(w, steps[..|steps| - 1]);
      if Enabled(u, steps[|steps| - 1]) then Next(u, steps[|steps| - 1]) else u
  }

  predicate Allowed(w: World, steps: seq<Step>) {
    steps == [] ||
    (Allowed(w, steps[..|steps| - 1]) && Enabled(After(w, steps[..|steps| - 1]), steps[|steps| - 1]))
  }

  lemma {:induction false} AfterAppend(w: World, xs: seq<Step>, ys: seq<Step>)
    ensures After(w, xs + ys) == After(After(w, xs), ys)
    ensures Allowed(w, xs + ys) <==> Allowed(w, xs) && Allowed(After(w, xs), ys)
  {
    if ys == [] {
      assert xs + ys == xs;
    } else {
      var n := |ys| - 1;
      assert (xs + ys)[..|xs + ys| - 1] == xs + ys[..n];
      AfterAppend(w, xs, ys[..n]);
    }
  }
}
