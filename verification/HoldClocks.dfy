/**
 Hold expiry across the two stores. Redis counts whole seconds from a floored application clock, Mongo
 counts milliseconds from a later reading of it. These lemmas assume one monotone clock for both and no
 extension of holds, and show that the expiry job never takes back a hold that a reserve would respect.
 */
module HoldClocks {
  import opened Basics
  import opened SeatModel
  import opened ScriptReplies
  import opened SeatRuns
  import opened BookingProtocol
  import opened BookingSafety

  /** The step happens at `at` milliseconds: its readings of either clock agree with that. */
  predicate HappensAt(s: Step, at: int) {
    match s
    case Hold(_, _, _, t, now) => t == at && now >= at / 1000
    case HoldInsert(_, t) => t == at
    case ExpireFind(_, t) => t == at
    case ExpireScript(_, now) => now == at / 1000
    case PayValidate(_, t) => t == at
    case ConfirmScript(_, now) => now == at / 1000
    case Environment(_, e) => e.now == at / 1000 && !e.op.Extend?
    case _ => true
  }

  predicate HeldAt(stores: Stores, showtime: ShowtimeId, b: BookingId, k: SeatId, until: int) {
    && showtime in stores && k in stores[showtime].seats
    && var seat := stores[showtime].seats[k]; seat.Held? && seat.owner == b && seat.until == until
  }

  /** Every hold of `b` ends by the given millisecond. */
  ghost predicate HoldsEndBy(stores: Stores, b: BookingId, ms: int) {
    forall showtime, k, until :: HeldAt(stores, showtime, b, k, until) ==> until * 1000 <= ms
  }

  ghost predicate ClockOf(stores: Stores, b: BookingId, bk: Option<Booking>, pc: Option<Pc>, at: int) {
    && (bk.Some? ==> HoldsEndBy(stores, b, bk.value.holdExpiresAt))
    && (bk.Some? && pc == Some(ExpireFound) ==> bk.value.holdExpiresAt < at)
    && (bk.None? && pc.Some? && pc.value.HoldReserved? ==>
          HoldsEndBy(stores, b, pc.value.expire * 1000) && pc.value.expire * 1000 <= at + HOLD_MS)
  }

  ghost predicate ClockInv(w: World, at: int) {
    forall b :: ClockOf(w.stores, b, Find(w.bookings, b), Find(w.pc, b), at)
  }

  /** No script but an extension or the booking's own reserve gives the booking a hold it did not have. */
  lemma ScriptHolds(w: World, showtime: ShowtimeId, op: Op, now: int, b: BookingId)
    requires !op.Extend? && !ReservesFor(Event(now, op), b)
    ensures var stores' := Script(w, showtime, op, now).stores;
            forall sh, k, until :: HeldAt(stores', sh, b, k, until) ==> HeldAt(w.stores, sh, b, k, until)
  {
  }

  lemma HoldsStillEnd(stores: Stores, stores': Stores, b: BookingId, ms: int)
    requires forall sh, k, until :: HeldAt(stores', sh, b, k, until) ==> HeldAt(stores, sh, b, k, until)
    ensures HoldsEndBy(stores, b, ms) ==> HoldsEndBy(stores', b, ms)
  {
  }

  /** The script a step runs, if any, as an operation on one showtime. */
  function ScriptOf(w: World, s: Step): Option<(ShowtimeId, Op, int)>
    requires Enabled(w, s)
  {
    match s
    case Hold(b, showtime, reqs, t, now) => Some((showtime, Reserve(b, t / 1000 + HOLD_SECONDS, reqs), now))
    case HoldUndo(b) => Some((w.pc[b].showtime, Release(b, Ids(w.pc[b].reqs)), 0))
    case CancelScript(b) => Some((w.bookings[b].showtime, Release(b, SeatIds(w, b)), 0))
    case ExpireScript(b, _) => Some((w.bookings[b].showtime, Release(b, SeatIds(w, b)), 0))
    case ReleaseScript(b) => Some((w.bookings[b].showtime, Release(b, SeatIds(w, b)), 0))
    case ConfirmScript(b, now) => Some((w.bookings[b].showtime, Confirm(b, SeatIds(w, b)), now))
    case Environment(showtime, e) => Some((showtime, e.op, e.now))
    case _ => None
  }

  ghost predicate StoresByScript(w: World, s: Step)
    requires Enabled(w, s)
  {
    Next(w, s).stores == w.stores ||
    match ScriptOf(w, s)
    case Some((showtime, op, now)) => Next(w, s).stores == Script(w, showtime, op, now).stores
    case None => false
  }

  /** What a step other than its own reserve does to the clock-related records of `b`. */
  ghost predicate ClockRecords(w: World, s: Step, b: BookingId)
    requires Enabled(w, s)
  {
    var bk, bk', pc, pc' := Find(w.bookings, b), Find(Next(w, s).bookings, b), Find(w.pc, b), Find(Next(w, s).pc, b);
    && (if s.HoldInsert? && s.b == b
        then pc.Some? && pc.value.HoldReserved? && pc' == None &&
             bk' == Some(Booking(pc.value.showtime, pc.value.reqs, s.t + HOLD_MS, BookingPending))
        else bk'.Some? == bk.Some? && (bk.Some? ==> bk'.value.holdExpiresAt == bk.value.holdExpiresAt))
    && (pc' == Some(ExpireFound) ==>
          pc == pc' || (s.ExpireFind? && s.b == b && bk.Some? && bk.value.holdExpiresAt < s.t))
    && (pc'.Some? && pc'.value.HoldReserved? ==> pc == pc')
  }

  lemma HoldStepEffect(w: World, s: Step, b: BookingId)
    requires Enabled(w, s) && (IsHoldStep(s) || s.Environment?)
    ensures StoresByScript(w, s) && (!(s.Hold? && s.b == b) ==> ClockRecords(w, s, b))
  {
  }

  lemma EndStepEffect(w: World, s: Step, b: BookingId)
    requires Enabled(w, s) && IsEndStep(s)
    ensures StoresByScript(w, s) && ClockRecords(w, s, b)
  {
  }

  lemma PayStepEffect(w: World, s: Step, b: BookingId)
    requires Enabled(w, s) && IsPayStep(s)
    ensures StoresByScript(w, s) && ClockRecords(w, s, b)
  {
  }

  lemma HookStepEffect(w: World, s: Step, b: BookingId)
    requires Enabled(w, s) && IsHookStep(s)
    ensures StoresByScript(w, s) && ClockRecords(w, s, b)
  {
  }

  lemma SettleStepEffect(w: World, s: Step, b: BookingId)
    requires Enabled(w, s) && (s.ConfirmScript? || s.ConfirmSave? || s.ReleaseScript?)
    ensures StoresByScript(w, s) && ClockRecords(w, s, b)
  {
    match s
    case ConfirmScript(c, now) => assert Next(w, s).bookings == w.bookings;
    case ConfirmSave(c) => assert Next(w, s).stores == w.stores;
    case ReleaseScript(c) => assert Next(w, s).bookings == w.bookings;
  }

  lemma StepEffect(w: World, s: Step, b: BookingId)
    requires Enabled(w, s)
    ensures StoresByScript(w, s) && (!(s.Hold? && s.b == b) ==> ClockRecords(w, s, b))
  {
    if IsHoldStep(s) || s.Environment? {
      HoldStepEffect(w, s, b);
    } else if IsEndStep(s) {
      EndStepEffect(w, s, b);
    } else if IsPayStep(s) {
      PayStepEffect(w, s, b);
    } else if IsHookStep(s) {
      HookStepEffect(w, s, b);
    } else {
      SettleStepEffect(w, s, b);
    }
  }

  lemma OtherHolds(w: World, s: Step, b: BookingId)
    requires Enabled(w, s) && !(s.Environment? && s.event.op.Extend?) && !(s.Hold? && s.b == b)
    requires s.Environment? ==> !s.event.op.Reserve? && !s.event.op.ReserveOne?
    ensures forall sh, k, until :: HeldAt(Next(w, s).stores, sh, b, k, until) ==> HeldAt(w.stores, sh, b, k, until)
  {
    StepEffect(w, s, b);
    match ScriptOf(w, s)
    case Some((showtime, op, now)) => ScriptHolds(w, showtime, op, now, b);
    case None =>
  }

  /** A fresh hold ends no later than the floored clock plus ten minutes. */
  lemma FreshHold(w: World, s: Step)
    requires s.Hold? && Enabled(w, s) && InvFor(w, s.b)
    ensures HoldsEndBy(Next(w, s).stores, s.b, (s.t / 1000 + HOLD_SECONDS) * 1000)
  {
    var b, expire := s.b, s.t / 1000 + HOLD_SECONDS;
    var w' := Next(w, s);
    forall sh, k, until | HeldAt(w'.stores, sh, b, k, until)
      ensures until == expire
    {
      assert !OwnsAt(w.stores, sh, b, k);
    }
  }

  lemma OtherClock(w: World, s: Step, b: BookingId, before: int, at: int)
    requires before <= at && Enabled(w, s) && HappensAt(s, at) && !(s.Hold? && s.b == b)
    requires b in w.bookings ==> !(s.HoldInsert? && s.b == b)
    requires ClockOf(w.stores, b, Find(w.bookings, b), Find(w.pc, b), before)
    ensures ClockOf(Next(w, s).stores, b, Find(Next(w, s).bookings, b), Find(Next(w, s).pc, b), at)
  {
    var w' := Next(w, s);
    StepEffect(w, s, b);
    OtherHolds(w, s, b);
    if b in w.bookings {
      HoldsStillEnd(w.stores, w'.stores, b, w.bookings[b].holdExpiresAt);
    } else if b in w.pc && w.pc[b].HoldReserved? {
      HoldsStillEnd(w.stores, w'.stores, b, w.pc[b].expire * 1000);
    }
  }

  lemma ClockStep(w: World, s: Step, before: int, at: int)
    requires Inv(w) && ClockInv(w, before) && before <= at && Enabled(w, s) && HappensAt(s, at)
    ensures ClockInv(Next(w, s), at)
  {
    var w' := Next(w, s);
    forall b
      ensures ClockOf(w'.stores, b, Find(w'.bookings, b), Find(w'.pc, b), at)
    {
      assert ClockOf(w.stores, b, Find(w.bookings, b), Find(w.pc, b), before);
      assert b != [] ==> InvFor(w, b);
      if s.Hold? && s.b == b {
        FreshHold(w, s);
      } else {
        OtherClock(w, s, b, before, at);
      }
    }
  }

  /** Each step of the run at its own time, the times not decreasing, starting no earlier than `start`. */
  predicate OnOneClock(steps: seq<Step>, times: seq<int>, start: int) {
    && |times| == |steps|
    && (forall i :: 0 <= i < |steps| ==> start <= times[i] && HappensAt(steps[i], times[i]))
    && (forall i, j :: 0 <= i < j < |times| ==> times[i] <= times[j])
  }

  function Latest(times: seq<int>, start: int): int {
    if times == [] then start else times[|times| - 1]
  }

  lemma {:induction false} ClockRun(w: World, steps: seq<Step>, times: seq<int>, start: int)
    requires Initial(w) && Allowed(w, steps) && OnOneClock(steps, times, start)
    ensures Inv(After(w, steps)) && ClockInv(After(w, steps), Latest(times, start))
  {
    InvInitially(w);
    InvRun(w, steps);
    if steps == [] {
      forall b
        ensures ClockOf(w.stores, b, Find(w.bookings, b), Find(w.pc, b), start)
      {
      }
    } else {
      var n := |steps| - 1;
      ClockRun(w, steps[..n], times[..n], start);
      ClockStep(After(w, steps[..n]), steps[n], Latest(times[..n], start), times[n]);
    }
  }

  /**
   When the expiry job releases a booking's seats, every hold it still has there is one that a reserve at
   that moment would treat as free: the job takes nothing that was not already lost.
   */
  lemma ExpiryJobTakesOnlyFree(
    w: World, steps: seq<Step>, times: seq<int>, start: int, b: BookingId, now: int, at: int, k: SeatId)
    requires Initial(w) && Allowed(w, steps) && OnOneClock(steps, times, start)
    requires Latest(times, start) <= at && HappensAt(ExpireScript(b, now), at)
    requires var u := After(w, steps);
             && Enabled(u, ExpireScript(b, now))
             && var s := StoreOf(u, u.bookings[b].showtime); k in s.seats && OwnedBy(s.seats[k], b) && s.seats[k].Held?
    ensures var u := After(w, steps); Free(StoreOf(u, u.bookings[b].showtime).seats[k], now)
  {
    ClockRun(w, steps, times, start);
    var u := After(w, steps);
    var showtime := u.bookings[b].showtime;
    assert ClockOf(u.stores, b, Find(u.bookings, b), Find(u.pc, b), Latest(times, start));
    assert HeldAt(u.stores, showtime, b, k, u.stores[showtime].seats[k].until);
  }

  // ----- the strict rule -----

  predicate GrantedHold(w: World, s: Step, b: BookingId) {
    && s.Hold? && s.b == b
    && ReserveOutcome(StoreOf(w, s.showtime), b, s.t / 1000 + HOLD_SECONDS, s.reqs, s.now).Reserved?
  }

  /** The application's clock reading, in milliseconds, of the last granted reserve of `b` in the run. */
  function GrantedAt(w: World, steps: seq<Step>, b: BookingId): Option<int> {
    if steps == [] then None
    else
      var n := |steps| - 1;
      if GrantedHold(After(w, steps[..n]), steps[n], b) then Some(steps[n].t) else GrantedAt(w, steps[..n], b)
  }

  /** Every hold of `b` comes from the reserve at `t`; without one it has no hold. */
  ghost predicate HoldsFrom(stores: Stores, b: BookingId, t: Option<int>) {
    forall sh, k, until :: HeldAt(stores, sh, b, k, until) ==> t.Some? && until == t.value / 1000 + HOLD_SECONDS
  }

  lemma HoldsFromStep(w: World, s: Step, b: BookingId, t: Option<int>)
    requires Enabled(w, s) && InvFor(w, b) && !(s.Environment? && s.event.op.Extend?)
    requires HoldsFrom(w.stores, b, t)
    ensures HoldsFrom(Next(w, s).stores, b, if GrantedHold(w, s, b) then Some(s.t) else t)
  {
    if s.Hold? && s.b == b {
      if GrantedHold(w, s, b) {
        forall sh, k, until | HeldAt(Next(w, s).stores, sh, b, k, until)
          ensures until == s.t / 1000 + HOLD_SECONDS
        {
          assert !OwnsAt(w.stores, sh, b, k);
        }
      }
    } else {
      OtherHolds(w, s, b);
    }
  }

  lemma {:induction false} HoldsFromRun(w: World, steps: seq<Step>, times: seq<int>, start: int, b: BookingId)
    requires Initial(w) && Allowed(w, steps) && OnOneClock(steps, times, start) && b != []
    ensures HoldsFrom(After(w, steps).stores, b, GrantedAt(w, steps, b))
  {
    if steps != [] {
      var n := |steps| - 1;
      HoldsFromRun(w, steps[..n], times[..n], start, b);
      InvInitially(w);
      InvRun(w, steps[..n]);
      assert HappensAt(steps[n], times[n]);
      HoldsFromStep(After(w, steps[..n]), steps[n], b, GrantedAt(w, steps[..n], b));
    }
  }

  /**
   When the job releases a booking's hold, confirm, cleanup and read would already call it expired if and only if
   the clock has passed the second in which the hold ends, ten minutes after the second of its reserve. A caller
   who has only the record can rely on it as soon as the clock has passed the second of the record's deadline.
   */
  lemma ExpiryJobTakesExpiredIff(
    w: World, steps: seq<Step>, times: seq<int>, start: int, b: BookingId, now: int, at: int, k: SeatId)
    requires Initial(w) && Allowed(w, steps) && OnOneClock(steps, times, start)
    requires Latest(times, start) <= at && HappensAt(ExpireScript(b, now), at)
    requires var u := After(w, steps);
             && Enabled(u, ExpireScript(b, now))
             && var s := StoreOf(u, u.bookings[b].showtime); k in s.seats && OwnedBy(s.seats[k], b) && s.seats[k].Held?
    ensures var u, t := After(w, steps), GrantedAt(w, steps, b);
            && t.Some?
            && var seat := StoreOf(u, u.bookings[b].showtime).seats[k];
               && (Expired(seat, now) <==> at / 1000 > t.value / 1000 + HOLD_SECONDS)
               && (at / 1000 > u.bookings[b].holdExpiresAt / 1000 ==> Expired(seat, now))
  {
    ClockRun(w, steps, times, start);
    var u := After(w, steps);
    var showtime := u.bookings[b].showtime;
    var until := u.stores[showtime].seats[k].until;
    HoldsFromRun(w, steps, times, start, b);
    assert ClockOf(u.stores, b, Find(u.bookings, b), Find(u.pc, b), Latest(times, start));
    assert HeldAt(u.stores, showtime, b, k, until);
  }

  /**
   The condition can fail: on one clock, a run in which the job finds a booking one millisecond past
   its deadline and meets a hold that confirm, cleanup and read would not yet call expired.
   */
  lemma NotYetExpired(showtime: ShowtimeId, b: BookingId, seat: Request)
    requires b != []
    ensures var w := World(map[showtime := InitStore([seat])], map[], map[], map[]);
            var steps := [Hold(b, showtime, [seat], 0, 0), HoldInsert(b, 0), ExpireFind(b, HOLD_MS + 1)];
            var u, now := After(w, steps), (HOLD_MS + 1) / 1000;
            && Initial(w) && Allowed(w, steps) && OnOneClock(steps, [0, 0, HOLD_MS + 1], 0)
            && Enabled(u, ExpireScript(b, now)) && HappensAt(ExpireScript(b, now), HOLD_MS + 1)
            && HeldAt(u.stores, showtime, b, seat.id, now) && !Expired(u.stores[showtime].seats[seat.id], now)
  {
    var w := World(map[showtime := InitStore([seat])], map[], map[], map[]);
    var hold, insert, find := Hold(b, showtime, [seat], 0, 0), HoldInsert(b, 0), ExpireFind(b, HOLD_MS + 1);
    FirstHold(w, showtime, b, seat);
    var w1 := HoldNext(w, b, showtime, [seat], 0, 0);
    InsertedHold(w1, showtime, b, seat);
    var w2 := HoldInsertNext(w1, b, 0);
    OneMoreStep(w, [], w, hold);
    assert [] + [hold] == [hold];
    OneMoreStep(w, [hold], w1, insert);
    assert [hold] + [insert] == [hold, insert];
    OneMoreStep(w, [hold, insert], w2, find);
    assert [hold, insert] + [find] == [hold, insert, find];
  }

  lemma OneMoreStep(w: World, steps: seq<Step>, u: World, s: Step)
    requires Allowed(w, steps) && After(w, steps) == u && Enabled(u, s)
    ensures Allowed(w, steps + [s]) && After(w, steps + [s]) == Next(u, s)
  {
    assert (steps + [s])[..|steps|] == steps;
  }

  /** The first hold of a one-seat showtime, at time zero. */
  lemma FirstHold(w: World, showtime: ShowtimeId, b: BookingId, seat: Request)
    requires b != [] && w == World(map[showtime := InitStore([seat])], map[], map[], map[])
    ensures Initial(w)
    ensures var u := HoldNext(w, b, showtime, [seat], 0, 0);
            && Find(u.pc, b) == Some(HoldReserved(showtime, [seat], HOLD_SECONDS))
            && HeldAt(u.stores, showtime, b, seat.id, HOLD_SECONDS)
  {
    assert Ids([seat])[0] == seat.id;
    ReserveGranted(InitStore([seat]), b, HOLD_SECONDS, [seat], 0);
  }

  /** Its insert, still at time zero: the job may find the booking from a millisecond past ten minutes on. */
  lemma InsertedHold(w: World, showtime: ShowtimeId, b: BookingId, seat: Request)
    requires Find(w.pc, b) == Some(HoldReserved(showtime, [seat], HOLD_SECONDS))
    ensures var u := HoldInsertNext(w, b, 0);
            && u.stores == w.stores
            && Enabled(u, ExpireFind(b, HOLD_MS + 1))
            && Enabled(Next(u, ExpireFind(b, HOLD_MS + 1)), ExpireScript(b, HOLD_SECONDS))
  {
  }
}
