/**
 Safety of the booking life cycle over every run of the two-store protocol. The invariant is stated per
 booking; a step of one booking touches another only through the seats, and there it can neither give
 seats away nor take booked ones.
 */
module BookingSafety {
  import opened Basics
  import opened SeatModel
  import opened ScriptReplies
  import opened SeatRuns
  import opened BookingProtocol

  type Stores = map<ShowtimeId, Store>
  type Payments = map<PaymentId, Payment>

  function Find<K, V>(m: map<K, V>, k: K): Option<V> {
    if k in m then Some(m[k]) else None
  }

  // ----- the invariant of one booking -----

  predicate OwnsAt(stores: Stores, showtime: ShowtimeId, b: BookingId, k: SeatId) {
    showtime in stores && Owns(stores[showtime], b, k)
  }

  ghost predicate OwnsNothing(stores: Stores, b: BookingId) {
    forall showtime, k :: !OwnsAt(stores, showtime, b, k)
  }

  ghost predicate OwnsOnly(stores: Stores, b: BookingId, showtime: ShowtimeId, ids: seq<SeatId>) {
    forall sh, k :: OwnsAt(stores, sh, b, k) ==> sh == showtime && k in ids
  }

  /** The listed seats are distinct, exist, and are all booked to `b`. */
  ghost predicate AllBooked(stores: Stores, b: BookingId, showtime: ShowtimeId, ids: seq<SeatId>) {
    && Distinct(ids) && showtime in stores
    && forall k :: k in ids ==> BookedBy(stores[showtime], b, k)
  }

  predicate PaymentOf(payments: Payments, p: PaymentId, b: BookingId) {
    p in payments && payments[p].booking == b
  }

  ghost predicate NoPayment(payments: Payments, b: BookingId) {
    forall p :: !PaymentOf(payments, p, b)
  }

  ghost predicate AllCompleted(payments: Payments, b: BookingId) {
    forall p :: PaymentOf(payments, p, b) ==> payments[p].status.PaymentCompleted?
  }

  ghost predicate AllFailed(payments: Payments, b: BookingId) {
    forall p :: PaymentOf(payments, p, b) ==> payments[p].status.PaymentFailed?
  }

  /** At most one payment, and not a failed one. */
  ghost predicate OneNotFailed(payments: Payments, b: BookingId) {
    && (forall p :: PaymentOf(payments, p, b) ==> !payments[p].status.PaymentFailed?)
    && (forall p, q :: PaymentOf(payments, p, b) && PaymentOf(payments, q, b) ==> p == q)
  }

  ghost predicate StatusSound(stores: Stores, payments: Payments, b: BookingId, bk: Booking, pc: Option<Pc>) {
    match bk.status
    case BookingPending => true
    case BookingConfirmed => pc.None? && AllBooked(stores, b, bk.showtime, Ids(bk.reqs)) && AllCompleted(payments, b)
    case BookingCancelled => OwnsNothing(stores, b)
    case BookingExpired => OwnsNothing(stores, b)
  }

  ghost predicate PcSound(stores: Stores, payments: Payments, b: BookingId, bk: Booking, pc: Pc) {
    match pc
    case HoldReserved(_, _, _) => false
    case HoldRollback(_, _) => false
    case CancelFound => bk.status.BookingPending?
    case CancelReleased => bk.status.BookingPending? && OwnsNothing(stores, b)
    case ExpireFound => bk.status.BookingPending?
    case ExpireReleased => bk.status.BookingPending? && OwnsNothing(stores, b)
    case PayValidated => bk.status.BookingPending?
    case PayUnclaimed => bk.status.BookingPending? && AllFailed(payments, b)
    case PayCreated(p) => bk.status.BookingPending? && Find(payments, p) == Some(Payment(b, PaymentPending, None))
    case HookFound(p, _) => PaymentOf(payments, p, b) && !payments[p].status.PaymentCompleted?
    case HookCompleted(p) => PaymentOf(payments, p, b) && payments[p].status.PaymentCompleted?
    case HookFailed(p) => PaymentOf(payments, p, b) && payments[p].status.PaymentFailed?
    case ConfirmDone(p) =>
      && bk.status.BookingPending? && AllBooked(stores, b, bk.showtime, Ids(bk.reqs))
      && PaymentOf(payments, p, b) && payments[p].status.PaymentCompleted?
    case ReleaseDone => bk.status.BookingPending? && OwnsNothing(stores, b)
  }

  /** While a booking owns a seat and no failure is being processed, it has one payment at most, not failed. */
  ghost predicate PaymentsSound(stores: Stores, payments: Payments, b: BookingId, pc: Option<Pc>) {
    OwnsNothing(stores, b) || (pc.Some? && pc.value.HookFailed?) || OneNotFailed(payments, b)
  }

  ghost predicate InvOf(stores: Stores, payments: Payments, b: BookingId, bk: Option<Booking>, pc: Option<Pc>) {
    if bk.Some? then
      && bk.value.reqs != []
      && OwnsOnly(stores, b, bk.value.showtime, Ids(bk.value.reqs))
      && StatusSound(stores, payments, b, bk.value, pc)
      && (pc.Some? ==> PcSound(stores, payments, b, bk.value, pc.value))
      && PaymentsSound(stores, payments, b, pc)
    else
      && NoPayment(payments, b)
      && match pc
         case None => OwnsNothing(stores, b)
         case Some(HoldReserved(showtime, reqs, _)) => reqs != [] && OwnsOnly(stores, b, showtime, Ids(reqs))
         case Some(HoldRollback(showtime, reqs)) => OwnsOnly(stores, b, showtime, Ids(reqs))
         case _ => false
  }

  ghost predicate InvFor(w: World, b: BookingId) {
    InvOf(w.stores, w.payments, b, Find(w.bookings, b), Find(w.pc, b))
  }

  ghost predicate Inv(w: World) {
    && (forall b :: b != [] ==> InvFor(w, b))
    && [] !in w.bookings && [] !in w.pc
  }

  // ----- what one booking's step does to the others -----

  /** From `s` to `t` no booking but `b` gains a seat, and none but `b` loses a booked one. */
  ghost predicate Evolves(s: Store, t: Store, b: BookingId) {
    && (forall c, k :: c != b && Owns(t, c, k) ==> Owns(s, c, k))
    && (forall c, k :: c != b && BookedBy(s, c, k) ==> BookedBy(t, c, k))
  }

  ghost predicate StoresEvolve(stores: Stores, stores': Stores, b: BookingId) {
    && stores'.Keys == stores.Keys
    && forall showtime :: showtime in stores ==> Evolves(stores[showtime], stores'[showtime], b)
  }

  /** Payments of bookings other than `b` are the same. */
  ghost predicate PaymentsFrame(ps: Payments, ps': Payments, b: BookingId) {
    && (forall p :: p in ps && ps[p].booking != b ==> p in ps' && ps'[p] == ps[p])
    && (forall p :: p in ps' && ps'[p].booking != b ==> p in ps && ps[p] == ps'[p])
  }

  lemma OthersKept(
    stores: Stores, stores': Stores, ps: Payments, ps': Payments,
    b: BookingId, c: BookingId, bk: Option<Booking>, pc: Option<Pc>)
    requires StoresEvolve(stores, stores', b) && PaymentsFrame(ps, ps', b)
    requires c != b && InvOf(stores, ps, c, bk, pc)
    ensures InvOf(stores', ps', c, bk, pc)
  {
    forall sh, k | OwnsAt(stores', sh, c, k)
      ensures OwnsAt(stores, sh, c, k)
    {
      assert Evolves(stores[sh], stores'[sh], b);
    }
    assert OwnsNothing(stores, c) ==> OwnsNothing(stores', c);
    assert forall sh, ids :: OwnsOnly(stores, c, sh, ids) ==> OwnsOnly(stores', c, sh, ids);
    assert forall p :: PaymentOf(ps', p, c) ==> PaymentOf(ps, p, c) && ps'[p] == ps[p];
    assert OneNotFailed(ps, c) ==> OneNotFailed(ps', c);
    if bk.Some? {
      assert AllBooked(stores, c, bk.value.showtime, Ids(bk.value.reqs)) ==>
          AllBooked(stores', c, bk.value.showtime, Ids(bk.value.reqs));
    }
  }

  /** Whose script this is; the other operations have no owner. */
  function Actor(op: Op): BookingId {
    match op
    case Reserve(b, _, _) => b
    case ReserveOne(b, _, _) => b
    case Confirm(b, _) => b
    case Release(b, _) => b
    case Extend(_, _, _) => []
    case Cleanup => []
    case Read(_) => []
  }

  lemma ScriptEvolves(s: Store, op: Op, now: int)
    ensures Evolves(s, Apply(s, Event(now, op)), Actor(op))
  {
    var e := Event(now, op);
    forall c, k | c != Actor(op)
      ensures Owns(Apply(s, e), c, k) ==> Owns(s, c, k)
      ensures BookedBy(s, c, k) ==> BookedBy(Apply(s, e), c, k)
    {
      GainsByGrant(s, e, c, k);
      if BookedBy(s, c, k) {
        BookedKept(s, e, c, k);
      }
    }
  }

  lemma ScriptFrame(w: World, showtime: ShowtimeId, op: Op, now: int)
    ensures StoresEvolve(w.stores, Script(w, showtime, op, now).stores, Actor(op))
  {
    if showtime in w.stores {
      ScriptEvolves(w.stores[showtime], op, now);
    }
  }

  // ----- scripts, seen from the booking that runs them -----

  lemma ReserveEffect(w: World, showtime: ShowtimeId, b: BookingId, expire: int, reqs: seq<Request>, now: int)
    requires OwnsNothing(w.stores, b)
    ensures OwnsOnly(Script(w, showtime, Reserve(b, expire, reqs), now).stores, b, showtime, Ids(reqs))
  {
    var stores' := Script(w, showtime, Reserve(b, expire, reqs), now).stores;
    forall sh, k | OwnsAt(stores', sh, b, k)
      ensures sh == showtime && k in Ids(reqs)
    {
      assert !OwnsAt(w.stores, sh, b, k);
      if sh == showtime {
        GainsByGrant(w.stores[sh], Event(now, Reserve(b, expire, reqs)), b, k);
      }
    }
  }

  /** Releasing its listed seats leaves `b` with nothing at all. */
  lemma ReleaseEffect(w: World, showtime: ShowtimeId, b: BookingId, ids: seq<SeatId>)
    requires b != [] && OwnsOnly(w.stores, b, showtime, ids)
    ensures OwnsNothing(Script(w, showtime, Release(b, ids), 0).stores, b)
  {
    var stores' := Script(w, showtime, Release(b, ids), 0).stores;
    forall sh, k
      ensures !OwnsAt(stores', sh, b, k)
    {
      assert OwnsAt(w.stores, sh, b, k) ==> sh == showtime && k in ids;
    }
  }

  lemma ConfirmEffect(w: World, showtime: ShowtimeId, b: BookingId, ids: seq<SeatId>, now: int)
    requires OwnsOnly(w.stores, b, showtime, ids)
    ensures var stores' := Script(w, showtime, Confirm(b, ids), now).stores;
            && OwnsOnly(stores', b, showtime, ids)
            && (OwnsNothing(w.stores, b) ==> OwnsNothing(stores', b))
            && (BatchOk(ConfirmOutcome(StoreOf(w, showtime), b, ids, now)) ==>
                  AllBooked(stores', b, showtime, ids) && !OwnsNothing(w.stores, b))
  {
    var stores' := Script(w, showtime, Confirm(b, ids), now).stores;
    forall sh, k | OwnsAt(stores', sh, b, k)
      ensures OwnsAt(w.stores, sh, b, k)
    {
    }
    ConfirmSucceeds(StoreOf(w, showtime), b, ids, now);
    if BatchOk(ConfirmOutcome(StoreOf(w, showtime), b, ids, now)) {
      assert OwnsAt(w.stores, showtime, b, ids[0]);
    }
  }

  lemma ReleaseOkMeansOwned(w: World, showtime: ShowtimeId, b: BookingId, ids: seq<SeatId>)
    requires BatchOk(ReleaseOutcome(StoreOf(w, showtime), b, ids))
    ensures !OwnsNothing(w.stores, b)
  {
    ReleaseSucceeds(StoreOf(w, showtime), b, ids);
    assert OwnsAt(w.stores, showtime, b, ids[0]);
  }

  // ----- every step keeps the invariant -----

  /** What a step may leave changed: its own booking's entries, and the stores and payments as framed. */
  ghost predicate Frame(w: World, w': World, b: BookingId) {
    && StoresEvolve(w.stores, w'.stores, b)
    && PaymentsFrame(w.payments, w'.payments, b)
    && forall c :: c != b ==> Find(w'.bookings, c) == Find(w.bookings, c) && Find(w'.pc, c) == Find(w.pc, c)
  }

  ghost predicate Keeps(w: World, w': World, b: BookingId) {
    Frame(w, w', b) && InvFor(w', b)
  }

  lemma StoresSame(stores: Stores, b: BookingId)
    ensures StoresEvolve(stores, stores, b)
  {
  }

  /** The operation moves on to `pc`, with nothing else changed. */
  lemma GotoKeeps(w: World, b: BookingId, pc: Pc)
    requires InvFor(w, b) && b in w.bookings && !w.bookings[b].status.BookingConfirmed?
    requires PcSound(w.stores, w.payments, b, w.bookings[b], pc)
    requires PaymentsSound(w.stores, w.payments, b, Some(pc))
    ensures Keeps(w, Goto(w, b, pc), b)
  {
    StoresSame(w.stores, b);
  }

  /** The operation ends, possibly by saving a status. */
  lemma FinishKeeps(w: World, b: BookingId, status: BookingStatus)
    requires InvFor(w, b) && b in w.bookings && PaymentsSound(w.stores, w.payments, b, None)
    requires StatusSound(w.stores, w.payments, b, w.bookings[b].(status := status), None)
    ensures Keeps(w, Finish(SetStatus(w, b, status), b), b)
  {
    StoresSame(w.stores, b);
  }

  lemma FinishSameStatus(w: World, b: BookingId)
    requires InvFor(w, b) && b in w.bookings && PaymentsSound(w.stores, w.payments, b, None)
    requires b in w.pc
    ensures Keeps(w, Finish(w, b), b)
  {
    StoresSame(w.stores, b);
  }

  lemma FrameThenPc(w: World, w1: World, b: BookingId, pc: Pc)
    requires Frame(w, w1, b)
    ensures Frame(w, Goto(w1, b, pc), b) && Frame(w, Finish(w1, b), b)
  {
  }

  lemma HoldKeeps(w: World, b: BookingId, showtime: ShowtimeId, reqs: seq<Request>, t: int, now: int)
    requires b !in w.bookings && b !in w.pc && InvFor(w, b)
    ensures Keeps(w, HoldNext(w, b, showtime, reqs, t, now), b)
  {
    var expire := t / 1000 + HOLD_SECONDS;
    if ReserveOutcome(StoreOf(w, showtime), b, expire, reqs, now).Reserved? {
      var w1 := Script(w, showtime, Reserve(b, expire, reqs), now);
      ScriptFrame(w, showtime, Reserve(b, expire, reqs), now);
      ReserveEffect(w, showtime, b, expire, reqs, now);
      FrameThenPc(w, w1, b, HoldReserved(showtime, reqs, expire));
    } else {
      StoresSame(w.stores, b);
    }
  }

  lemma HoldInsertKeeps(w: World, b: BookingId, t: int)
    requires b in w.pc && w.pc[b].HoldReserved? && InvFor(w, b)
    ensures Keeps(w, HoldInsertNext(w, b, t), b)
    ensures Keeps(w, Goto(w, b, HoldRollback(w.pc[b].showtime, w.pc[b].reqs)), b)
  {
    StoresSame(w.stores, b);
  }

  lemma HoldUndoKeeps(w: World, b: BookingId)
    requires b in w.pc && w.pc[b].HoldRollback? && b != [] && InvFor(w, b)
    ensures Keeps(w, HoldUndoNext(w, b), b)
  {
    var HoldRollback(showtime, reqs) := w.pc[b];
    ReleaseEffect(w, showtime, b, Ids(reqs));
    ScriptFrame(w, showtime, Release(b, Ids(reqs)), 0);
  }

  lemma ReleaseOwnKeeps(w: World, b: BookingId, pc: Pc)
    requires b in w.bookings && b in w.pc && b != [] && InvFor(w, b)
    requires w.bookings[b].status.BookingPending? && (pc.CancelReleased? || pc.ExpireReleased? || pc.ReleaseDone?)
    ensures Keeps(w, Goto(ReleaseOwn(w, b), b, pc), b)
  {
    ReleaseEffect(w, w.bookings[b].showtime, b, SeatIds(w, b));
    ScriptFrame(w, w.bookings[b].showtime, Release(b, SeatIds(w, b)), 0);
  }

  lemma ReleaseScriptKeeps(w: World, b: BookingId)
    requires b in w.bookings && b in w.pc && b != [] && w.pc[b].HookFailed? && InvFor(w, b)
    ensures Keeps(w, ReleaseScriptNext(w, b), b)
  {
    var showtime, ids := w.bookings[b].showtime, SeatIds(w, b);
    if BatchOk(ReleaseOutcome(StoreOf(w, showtime), b, ids)) {
      ReleaseOkMeansOwned(w, showtime, b, ids);
      ReleaseOwnKeeps(w, b, ReleaseDone);
    } else {
      ReleaseEffect(w, showtime, b, ids);
      ScriptFrame(w, showtime, Release(b, ids), 0);
    }
  }

  lemma PayLookupKeeps(w: World, b: BookingId)
    requires b in w.pc && w.pc[b].PayValidated? && InvFor(w, b)
    ensures Keeps(w, Finish(w, b), b)
    ensures !HasLivePayment(w, b) ==> Keeps(w, Goto(w, b, PayUnclaimed), b)
  {
    FinishSameStatus(w, b);
    if !HasLivePayment(w, b) {
      assert forall p :: PaymentOf(w.payments, p, b) ==> !Live(w.payments[p]);
      GotoKeeps(w, b, PayUnclaimed);
    }
  }

  lemma PayCreateKeeps(w: World, b: BookingId, p: PaymentId)
    requires b in w.pc && w.pc[b].PayUnclaimed? && p !in w.payments && InvFor(w, b)
    ensures Keeps(w, Goto(SetPayment(w, p, Payment(b, PaymentPending, None)), b, PayCreated(p)), b)
  {
    StoresSame(w.stores, b);
    var ps' := w.payments[p := Payment(b, PaymentPending, None)];
    assert forall q :: PaymentOf(ps', q, b) ==> q == p || PaymentOf(w.payments, q, b);
    assert forall q :: PaymentOf(w.payments, q, b) ==> PaymentOf(ps', q, b);
  }

  lemma PayGatewayKeeps(w: World, b: BookingId, tx: Str)
    requires b in w.pc && w.pc[b].PayCreated? && w.pc[b].payment in w.payments && InvFor(w, b)
    ensures Keeps(w, PayGatewayNext(w, b, tx), b)
  {
    StoresSame(w.stores, b);
    var ps' := PayGatewayNext(w, b, tx).payments;
    assert forall q :: PaymentOf(ps', q, b) == PaymentOf(w.payments, q, b);
  }

  lemma HookUpdateKeeps(w: World, b: BookingId)
    requires b in w.pc && w.pc[b].HookFound? && w.pc[b].payment in w.payments && InvFor(w, b)
    ensures Keeps(w, HookUpdateNext(w, b), b)
  {
    var HookFound(p, success) := w.pc[b];
    var status := if success then PaymentCompleted else PaymentFailed;
    var w1 := SetPayment(w, p, w.payments[p].(status := status));
    StoresSame(w.stores, b);
    FrameThenPc(w, w1, b, HookCompleted(p));
    FrameThenPc(w, w1, b, HookFailed(p));
    assert forall q :: PaymentOf(w1.payments, q, b) == PaymentOf(w.payments, q, b);
    if success {
      assert OneNotFailed(w.payments, b) ==> OneNotFailed(w1.payments, b);
    }
  }

  lemma ConfirmScriptKeeps(w: World, b: BookingId, now: int)
    requires b in w.bookings && b in w.pc && w.pc[b].HookCompleted? && b != [] && InvFor(w, b)
    ensures Keeps(w, ConfirmScriptNext(w, b, now), b)
  {
    var showtime, ids := w.bookings[b].showtime, SeatIds(w, b);
    var w1 := Script(w, showtime, Confirm(b, ids), now);
    ScriptFrame(w, showtime, Confirm(b, ids), now);
    ConfirmEffect(w, showtime, b, ids, now);
    assert InvFor(w1, b);
    FrameThenPc(w, w1, b, ConfirmDone(w.pc[b].payment));
    if BatchOk(ConfirmOutcome(StoreOf(w, showtime), b, ids, now)) {
      GotoKeeps(w1, b, ConfirmDone(w.pc[b].payment));
    } else {
      FinishSameStatus(w1, b);
    }
  }

  /** The save completes the proof: the booking still owns its seats, so the completed payment is its only one. */
  lemma ConfirmSaveKeeps(w: World, b: BookingId)
    requires b in w.bookings && b in w.pc && w.pc[b].ConfirmDone? && InvFor(w, b)
    ensures Keeps(w, Finish(SetStatus(w, b, BookingConfirmed), b), b)
  {
    var showtime, ids := w.bookings[b].showtime, SeatIds(w, b);
    assert ids[0] in ids;
    assert OwnsAt(w.stores, showtime, b, ids[0]);
    assert OneNotFailed(w.payments, b);
    FinishKeeps(w, b, BookingConfirmed);
  }

  predicate IsHoldStep(s: Step) {
    s.Hold? || s.HoldInsert? || s.HoldInsertFails? || s.HoldUndo?
  }

  lemma HoldStepKeeps(w: World, s: Step)
    requires IsHoldStep(s) && s.b != [] && Enabled(w, s) && InvFor(w, s.b)
    ensures Keeps(w, Next(w, s), s.b)
  {
    match s
    case Hold(b, showtime, reqs, t, now) => HoldKeeps(w, b, showtime, reqs, t, now);
    case HoldInsert(b, t) => HoldInsertKeeps(w, b, t);
    case HoldInsertFails(b) => HoldInsertKeeps(w, b, 0);
    case HoldUndo(b) => HoldUndoKeeps(w, b);
  }

  predicate IsEndStep(s: Step) {
    s.CancelFind? || s.CancelScript? || s.CancelSave? || s.ExpireFind? || s.ExpireScript? || s.ExpireSave?
  }

  lemma EndStepKeeps(w: World, s: Step)
    requires IsEndStep(s) && s.b != [] && Enabled(w, s) && InvFor(w, s.b)
    ensures Keeps(w, Next(w, s), s.b)
  {
    match s
    case CancelFind(b) => GotoKeeps(w, b, CancelFound);
    case CancelScript(b) => ReleaseOwnKeeps(w, b, CancelReleased);
    case CancelSave(b) => FinishKeeps(w, b, BookingCancelled);
    case ExpireFind(b, _) => GotoKeeps(w, b, ExpireFound);
    case ExpireScript(b, _) => ReleaseOwnKeeps(w, b, ExpireReleased);
    case ExpireSave(b) => FinishKeeps(w, b, BookingExpired);
  }

  predicate IsPayStep(s: Step) {
    s.PayValidate? || s.PayLookup? || s.PayCreate? || s.PayCreateFails? || s.PayGateway?
  }

  lemma PayStepKeeps(w: World, s: Step)
    requires IsPayStep(s) && Enabled(w, s) && InvFor(w, s.b)
    ensures Keeps(w, Next(w, s), s.b)
  {
    match s
    case PayValidate(b, _) => GotoKeeps(w, b, PayValidated);
    case PayLookup(b) => PayLookupKeeps(w, b);
    case PayCreate(b, p) => PayCreateKeeps(w, b, p);
    case PayCreateFails(b) => FinishSameStatus(w, b);
    case PayGateway(b, tx) => PayGatewayKeeps(w, b, tx);
  }

  predicate IsHookStep(s: Step) {
    s.HookFind? || s.HookUpdate? || s.ReleaseSave?
  }

  lemma HookStepKeeps(w: World, s: Step)
    requires IsHookStep(s) && Enabled(w, s) && InvFor(w, s.b)
    ensures Keeps(w, Next(w, s), s.b)
  {
    match s
    case HookFind(b, p, success) => GotoKeeps(w, b, HookFound(p, success));
    case HookUpdate(b) => HookUpdateKeeps(w, b);
    case ReleaseSave(b) => FinishKeeps(w, b, BookingCancelled);
  }

  lemma SettleStepKeeps(w: World, s: Step)
    requires s.ConfirmScript? || s.ConfirmSave? || s.ReleaseScript?
    requires s.b != [] && Enabled(w, s) && InvFor(w, s.b)
    ensures Keeps(w, Next(w, s), s.b)
  {
    match s
    case ConfirmScript(b, now) => ConfirmScriptKeeps(w, b, now);
    case ConfirmSave(b) => ConfirmSaveKeeps(w, b);
    case ReleaseScript(b) => ReleaseScriptKeeps(w, b);
  }

  lemma StepKeeps(w: World, s: Step)
    requires !s.Environment? && s.b != [] && Enabled(w, s) && InvFor(w, s.b)
    ensures Keeps(w, Next(w, s), s.b)
  {
    if IsHoldStep(s) {
      HoldStepKeeps(w, s);
    } else if IsEndStep(s) {
      EndStepKeeps(w, s);
    } else if IsPayStep(s) {
      PayStepKeeps(w, s);
    } else if IsHookStep(s) {
      HookStepKeeps(w, s);
    } else {
      SettleStepKeeps(w, s);
    }
  }

  lemma ActorNotEmpty(w: World, s: Step)
    requires [] !in w.bookings && [] !in w.pc && Enabled(w, s) && !s.Environment?
    ensures s.b != []
  {
  }

  lemma InvStep(w: World, s: Step)
    requires Inv(w) && Enabled(w, s)
    ensures Inv(Next(w, s))
  {
    var w' := Next(w, s);
    if s.Environment? {
      ScriptFrame(w, s.showtime, s.event.op, s.event.now);
      forall c | c != []
        ensures InvFor(w', c)
      {
        assert InvFor(w, c);
        OthersKept(w.stores, w'.stores, w.payments, w'.payments, [], c, Find(w.bookings, c), Find(w.pc, c));
      }
    } else {
      ActorNotEmpty(w, s);
      assert InvFor(w, s.b);
      StepKeeps(w, s);
      FrameGivesInv(w, w', s.b);
    }
  }

  lemma FrameGivesInv(w: World, w': World, b: BookingId)
    requires Inv(w) && b != [] && Keeps(w, w', b)
    ensures Inv(w')
  {
    forall c | c != []
      ensures InvFor(w', c)
    {
      if c != b {
        assert InvFor(w, c);
        OthersKept(w.stores, w'.stores, w.payments, w'.payments, b, c, Find(w.bookings, c), Find(w.pc, c));
      }
    }
    assert Find(w'.bookings, []) == Find(w.bookings, []) && Find(w'.pc, []) == Find(w.pc, []);
  }

  // ----- safety over whole runs -----

  lemma {:induction false} InvRun(w: World, steps: seq<Step>)
    requires Inv(w) && Allowed(w, steps)
    ensures Inv(After(w, steps))
  {
    if steps != [] {
      var n := |steps| - 1;
      InvRun(w, steps[..n]);
      InvStep(After(w, steps[..n]), steps[n]);
    }
  }

  lemma InvInitially(w: World)
    requires Initial(w)
    ensures Inv(w)
  {
    forall b | b != []
      ensures InvFor(w, b)
    {
      forall showtime, k
        ensures !OwnsAt(w.stores, showtime, b, k)
      {
        assert showtime in w.stores ==> AllAvailable(w.stores[showtime]);
      }
    }
  }

  /**
   In every reachable state, however the steps of other bookings interleave, the seats of a confirmed
   booking are distinct and each of them is booked to it in Redis.
   */
  lemma ConfirmedIsBooked(w: World, steps: seq<Step>, b: BookingId)
    requires Initial(w) && Allowed(w, steps)
    requires b in After(w, steps).bookings && After(w, steps).bookings[b].status.BookingConfirmed?
    ensures var u := After(w, steps);
            AllBooked(u.stores, b, u.bookings[b].showtime, SeatIds(u, b))
  {
    InvInitially(w);
    InvRun(w, steps);
    assert InvFor(After(w, steps), b);
  }

  /** Hence no two confirmed bookings of one showtime share a seat. */
  lemma NoSeatSoldTwice(w: World, steps: seq<Step>, b: BookingId, c: BookingId, k: SeatId)
    requires Initial(w) && Allowed(w, steps) && b != c
    requires var u := After(w, steps);
             && b in u.bookings && u.bookings[b].status.BookingConfirmed?
             && c in u.bookings && u.bookings[c].status.BookingConfirmed?
             && u.bookings[b].showtime == u.bookings[c].showtime
    ensures var u := After(w, steps); !(k in SeatIds(u, b) && k in SeatIds(u, c))
  {
    ConfirmedIsBooked(w, steps, b);
    ConfirmedIsBooked(w, steps, c);
    var u := After(w, steps);
    if k in SeatIds(u, b) {
      assert BookedBy(u.stores[u.bookings[b].showtime], b, k);
      assert !BookedBy(u.stores[u.bookings[c].showtime], c, k);
    }
  }

  lemma EmptyGainsNothing(w: World, s: Step)
    requires Inv(w) && Enabled(w, s) && OwnsNothing(w.stores, [])
    ensures OwnsNothing(Next(w, s).stores, [])
  {
    var w' := Next(w, s);
    if !s.Environment? {
      ActorNotEmpty(w, s);
      assert InvFor(w, s.b);
      StepKeeps(w, s);
    }
    forall sh, k
      ensures !OwnsAt(w'.stores, sh, [], k)
    {
      assert !OwnsAt(w.stores, sh, [], k);
      if s.Environment? && sh in w.stores && sh == s.showtime {
        GainsByGrant(w.stores[sh], s.event, [], k);
      } else if !s.Environment? && sh in w.stores {
        assert Evolves(w.stores[sh], w'.stores[sh], s.b);
      }
    }
  }

  lemma {:induction false} EmptyOwnsNothing(w: World, steps: seq<Step>)
    requires Initial(w) && Allowed(w, steps)
    ensures OwnsNothing(After(w, steps).stores, [])
  {
    if steps == [] {
      forall sh, k
        ensures !OwnsAt(w.stores, sh, [], k)
      {
        assert sh in w.stores ==> AllAvailable(w.stores[sh]);
      }
    } else {
      var n := |steps| - 1;
      EmptyOwnsNothing(w, steps[..n]);
      InvInitially(w);
      InvRun(w, steps[..n]);
      EmptyGainsNothing(After(w, steps[..n]), steps[n]);
    }
  }

  /**
   No seat is lost to the system: whenever nothing is in flight, every seat that is held or booked belongs to a
   pending or confirmed booking of that showtime which lists it.
   */
  lemma OwnersHaveBookings(w: World, steps: seq<Step>, showtime: ShowtimeId, k: SeatId)
    requires Initial(w) && Allowed(w, steps)
    requires var u := After(w, steps);
             && u.pc == map[]
             && showtime in u.stores && k in u.stores[showtime].seats && !u.stores[showtime].seats[k].Available?
    ensures var u := After(w, steps);
            var b := u.stores[showtime].seats[k].owner;
            && b in u.bookings && u.bookings[b].showtime == showtime && k in SeatIds(u, b)
            && (u.bookings[b].status.BookingPending? || u.bookings[b].status.BookingConfirmed?)
  {
    var u := After(w, steps);
    var b := u.stores[showtime].seats[k].owner;
    assert OwnsAt(u.stores, showtime, b, k);
    EmptyOwnsNothing(w, steps);
    InvInitially(w);
    InvRun(w, steps);
    assert InvFor(u, b);
  }

  predicate Terminal(status: BookingStatus) {
    !status.BookingPending?
  }

  /** A record in a terminal status is never written again, although two of the writers do not look at the status. */
  lemma TerminalStep(w: World, s: Step, b: BookingId)
    requires Inv(w) && Enabled(w, s)
    requires b in w.bookings && Terminal(w.bookings[b].status)
    ensures b in Next(w, s).bookings && Next(w, s).bookings[b] == w.bookings[b]
  {
    assert InvFor(w, b);
    if !s.Environment? {
      if s.b != b {
        ActorNotEmpty(w, s);
        assert InvFor(w, s.b);
        StepKeeps(w, s);
        assert Find(Next(w, s).bookings, b) == Find(w.bookings, b);
      } else {
        OwnTerminalStep(w, s);
      }
    }
  }

  lemma OwnTerminalStep(w: World, s: Step)
    requires !s.Environment? && Enabled(w, s) && InvFor(w, s.b)
    requires s.b in w.bookings && Terminal(w.bookings[s.b].status)
    ensures Next(w, s).bookings == w.bookings
  {
    match s
    case ConfirmScript(b, _) => assert Next(w, s).bookings == w.bookings;
    case HookUpdate(b) => assert Next(w, s).bookings == w.bookings;
    case ReleaseScript(b) => assert Next(w, s).bookings == w.bookings;
    case HookFind(b, _, _) => assert Next(w, s).bookings == w.bookings;
    case _ =>
  }

  /**
   Confirmed, cancelled and expired are terminal: from any reachable state, no continuation changes the
   record; a cancelled or expired booking owns no seat then or later, and a confirmed one keeps its seats and
   has completed payments only.
   */
  lemma {:induction false} TerminalForever(w: World, steps: seq<Step>, b: BookingId)
    requires Inv(w) && Allowed(w, steps)
    requires b in w.bookings && Terminal(w.bookings[b].status)
    ensures var u := After(w, steps);
            && b in u.bookings && u.bookings[b] == w.bookings[b]
            && (!u.bookings[b].status.BookingConfirmed? ==> OwnsNothing(u.stores, b))
            && (u.bookings[b].status.BookingConfirmed? ==>
                  && AllBooked(u.stores, b, u.bookings[b].showtime, SeatIds(u, b))
                  && AllCompleted(u.payments, b))
  {
    if steps != [] {
      var n := |steps| - 1;
      TerminalForever(w, steps[..n], b);
      InvRun(w, steps[..n]);
      TerminalStep(After(w, steps[..n]), steps[n], b);
    }
    InvRun(w, steps);
    assert InvFor(After(w, steps), b);
  }

  /** The same from the start of the system: `early` reaches the terminal status, `late` is whatever follows. */
  lemma TerminalStatus(w: World, early: seq<Step>, late: seq<Step>, b: BookingId)
    requires Initial(w) && Allowed(w, early + late)
    requires b in After(w, early).bookings && Terminal(After(w, early).bookings[b].status)
    ensures var u := After(w, early + late);
            && b in u.bookings && u.bookings[b] == After(w, early).bookings[b]
            && (!u.bookings[b].status.BookingConfirmed? ==> OwnsNothing(u.stores, b))
  {
    AfterAppend(w, early, late);
    InvInitially(w);
    InvRun(w, early);
    TerminalForever(After(w, early), late, b);
  }
}
