/**
 The hold guarantee across the two stores: a booking of distinct seats that is paid before its hold ends becomes
 confirmed, whatever the steps of other bookings are in between. Times are those the scripts read in Redis; no
 relation to the application clock is assumed.
 */
module PaidInTime {
  import opened Basics
  import opened SeatModel
  import opened ScriptReplies
  import opened SeatRuns
  import opened BookingProtocol
  import opened BookingSafety
  import opened BookingService
  import opened HoldClocks

  /** What the holder tolerates before `h`: anything of others, and of its own only insert, payment and success. */
  predicate Harmless(s: Step, b: BookingId, h: int) {
    match s
    case Environment(_, e) => Tolerable(e, b, h)
    case Hold(_, _, _, _, now) => s.b != b && now < h
    case ConfirmScript(_, now) => s.b != b && now < h
    case HookFind(_, _, success) => s.b == b ==> success
    case HoldInsert(_, _) => true
    case HookUpdate(_) => true
    case _ => s.b == b ==> IsPayStep(s)
  }

  /** The operation in flight, if any, leads to the seats and not away from them. */
  predicate Onward(pc: Pc, showtime: ShowtimeId, reqs: seq<Request>) {
    match pc
    case HoldReserved(sh, rs, _) => sh == showtime && rs == reqs
    case PayValidated => true
    case PayUnclaimed => true
    case PayCreated(_) => true
    case HookFound(_, success) => success
    case HookCompleted(_) => true
    case _ => false
  }

  ghost predicate SeatsHeld(stores: Stores, b: BookingId, showtime: ShowtimeId, reqs: seq<Request>, h: int) {
    showtime in stores && forall k :: k in Ids(reqs) ==> HeldPast(stores[showtime], b, k, h)
  }

  predicate OnTheWay(bk: Option<Booking>, pc: Option<Pc>, showtime: ShowtimeId, reqs: seq<Request>) {
    && (bk.Some? || (pc.Some? && pc.value.HoldReserved?))
    && (bk.Some? ==> bk.value.status.BookingPending? && bk.value.showtime == showtime && bk.value.reqs == reqs)
    && (pc.Some? ==> Onward(pc.value, showtime, reqs))
  }

  /** `b` has its seats until `h`, and its records ask for just those seats. */
  ghost predicate Payable(w: World, b: BookingId, showtime: ShowtimeId, reqs: seq<Request>, h: int) {
    && SeatsHeld(w.stores, b, showtime, reqs, h)
    && OnTheWay(Find(w.bookings, b), Find(w.pc, b), showtime, reqs)
  }

  lemma SeatsStayHeld(w: World, s: Step, b: BookingId, showtime: ShowtimeId, reqs: seq<Request>, h: int)
    requires Enabled(w, s) && Harmless(s, b, h) && h > 0
    requires SeatsHeld(w.stores, b, showtime, reqs, h)
    ensures SeatsHeld(Next(w, s).stores, b, showtime, reqs, h)
  {
    StepEffect(w, s, b);
    match ScriptOf(w, s)
    case Some((sh, op, now)) =>
      if sh == showtime && Next(w, s).stores != w.stores {
        assert Tolerable(Event(now, op), b, h);
        forall k | k in Ids(reqs)
          ensures HeldPast(Next(w, s).stores[showtime], b, k, h)
        {
          HeldPastKept(w.stores[showtime], Event(now, op), b, k, h);
        }
      }
    case None =>
  }

  /** A step leaves the records of every other booking alone. */
  lemma OthersRecords(w: World, s: Step, b: BookingId)
    requires Inv(w) && Enabled(w, s) && (s.Environment? || s.b != b)
    ensures Find(Next(w, s).bookings, b) == Find(w.bookings, b) && Find(Next(w, s).pc, b) == Find(w.pc, b)
  {
    if !s.Environment? {
      ActorNotEmpty(w, s);
      assert InvFor(w, s.b);
      StepKeeps(w, s);
    }
  }

  lemma OwnPayStep(w: World, s: Step, showtime: ShowtimeId, reqs: seq<Request>)
    requires IsPayStep(s) && Enabled(w, s)
    requires OnTheWay(Find(w.bookings, s.b), Find(w.pc, s.b), showtime, reqs)
    ensures OnTheWay(Find(Next(w, s).bookings, s.b), Find(Next(w, s).pc, s.b), showtime, reqs)
  {
  }

  lemma OwnRecordsStay(w: World, s: Step, showtime: ShowtimeId, reqs: seq<Request>, h: int)
    requires !s.Environment? && Enabled(w, s) && Harmless(s, s.b, h)
    requires OnTheWay(Find(w.bookings, s.b), Find(w.pc, s.b), showtime, reqs)
    ensures OnTheWay(Find(Next(w, s).bookings, s.b), Find(Next(w, s).pc, s.b), showtime, reqs)
  {
    if IsPayStep(s) {
      OwnPayStep(w, s, showtime, reqs);
    } else {
      assert s.HoldInsert? || s.HookFind? || s.HookUpdate?;
    }
  }

  lemma {:induction false} StaysPayable(
    w: World, steps: seq<Step>, b: BookingId, showtime: ShowtimeId, reqs: seq<Request>, h: int)
    requires Inv(w) && Allowed(w, steps) && h > 0 && Payable(w, b, showtime, reqs, h)
    requires forall i :: 0 <= i < |steps| ==> Harmless(steps[i], b, h)
    ensures Payable(After(w, steps), b, showtime, reqs, h)
  {
    if steps != [] {
      var n := |steps| - 1;
      StaysPayable(w, steps[..n], b, showtime, reqs, h);
      InvRun(w, steps[..n]);
      SeatsStayHeld(After(w, steps[..n]), steps[n], b, showtime, reqs, h);
      if steps[n].Environment? || steps[n].b != b {
        OthersRecords(After(w, steps[..n]), steps[n], b);
      } else {
        OwnRecordsStay(After(w, steps[..n]), steps[n], showtime, reqs, h);
      }
    }
  }

  lemma GrantedIsPayable(w: World, s: Step, b: BookingId)
    requires Enabled(w, s) && GrantedHold(w, s, b)
    ensures s.t / 1000 + HOLD_SECONDS > 0
    ensures Payable(Next(w, s), b, s.showtime, s.reqs, s.t / 1000 + HOLD_SECONDS)
  {
    var h := s.t / 1000 + HOLD_SECONDS;
    ReserveGranted(StoreOf(w, s.showtime), b, h, s.reqs, s.now);
    assert s.reqs[0].id in StoreOf(w, s.showtime).seats;
  }

  /** The confirm script has succeeded for `b`; its status is saved, or is about to be. */
  predicate Settling(w: World, b: BookingId) {
    && b in w.bookings
    && (w.bookings[b].status.BookingConfirmed? ||
        (w.bookings[b].status.BookingPending? && b in w.pc && w.pc[b].ConfirmDone?))
  }

  lemma ConfirmSettles(w: World, b: BookingId, showtime: ShowtimeId, reqs: seq<Request>, h: int, now: int)
    requires Enabled(w, ConfirmScript(b, now)) && Payable(w, b, showtime, reqs, h)
    requires b != [] && reqs != [] && Distinct(Ids(reqs)) && now <= h
    ensures ConfirmWillDo(w, b, now) && Settling(Next(w, ConfirmScript(b, now)), b)
  {
    ConfirmSucceeds(StoreOf(w, showtime), b, Ids(reqs), now);
  }

  lemma StaysSettling(w: World, s: Step, b: BookingId)
    requires Inv(w) && Enabled(w, s) && Settling(w, b)
    ensures Settling(Next(w, s), b)
  {
    if s.Environment? || s.b != b {
      OthersRecords(w, s, b);
    } else if w.bookings[b].status.BookingConfirmed? {
      TerminalStep(w, s, b);
    }
  }

  lemma {:induction false} StaysSettlingRun(w: World, steps: seq<Step>, b: BookingId)
    requires Inv(w) && Allowed(w, steps) && Settling(w, b)
    ensures Settling(After(w, steps), b)
  {
    if steps != [] {
      var n := |steps| - 1;
      StaysSettlingRun(w, steps[..n], b);
      InvRun(w, steps[..n]);
      StaysSettling(After(w, steps[..n]), steps[n], b);
    }
  }

  lemma SettlesForGood(
    w: World, b: BookingId, showtime: ShowtimeId, reqs: seq<Request>, h: int, now: int, rest: seq<Step>)
    requires Inv(w) && Enabled(w, ConfirmScript(b, now)) && Payable(w, b, showtime, reqs, h)
    requires b != [] && reqs != [] && Distinct(Ids(reqs)) && now <= h
    requires Allowed(Next(w, ConfirmScript(b, now)), rest)
    ensures Settling(After(Next(w, ConfirmScript(b, now)), rest), b)
  {
    ConfirmSettles(w, b, showtime, reqs, h, now);
    InvStep(w, ConfirmScript(b, now));
    StaysSettlingRun(Next(w, ConfirmScript(b, now)), rest, b);
  }

  ghost predicate ConfirmedOrAboutTo(w: World, b: BookingId) {
    && b in w.bookings
    && (w.bookings[b].status.BookingConfirmed? ||
        (Enabled(w, ConfirmSave(b)) && Next(w, ConfirmSave(b)).bookings[b].status.BookingConfirmed?))
  }

  lemma SettlingSaves(w: World, b: BookingId)
    requires Settling(w, b)
    ensures ConfirmedOrAboutTo(w, b)
  {
  }

  /**
   In one run, `b` gets a hold of distinct seats after the steps `early`, and until its end only harmless steps
   follow.
   */
  ghost predicate HeldUntil(w: World, early: seq<Step>, hold: Step, late: seq<Step>, b: BookingId, h: int) {
    && Initial(w) && Allowed(w, early + [hold] + late)
    && GrantedHold(After(w, early), hold, b) && Distinct(Ids(hold.reqs)) && h == hold.t / 1000 + HOLD_SECONDS
    && forall i :: 0 <= i < |late| ==> Harmless(late[i], b, h)
  }

  lemma HeldIsPayable(w: World, early: seq<Step>, hold: Step, late: seq<Step>, b: BookingId, h: int)
    requires HeldUntil(w, early, hold, late, b, h)
    ensures b != [] && hold.reqs != [] && Inv(After(w, early + [hold] + late))
    ensures Payable(After(w, early + [hold] + late), b, hold.showtime, hold.reqs, h)
  {
    var u, v := After(w, early), After(w, early + [hold]);
    AfterAppend(w, early + [hold], late);
    assert (early + [hold])[..|early|] == early;
    GrantedIsPayable(u, hold, b);
    InvInitially(w);
    InvRun(w, early + [hold]);
    InvRun(w, early + [hold] + late);
    StaysPayable(v, late, b, hold.showtime, hold.reqs, h);
  }

  /**
   While the hold lasts the confirm script of a completed payment runs, no later than the hold's end. From then on,
   whatever follows, the booking is confirmed, or all its webhook has left to do is the save that makes it so.
   */
  lemma PaidInTimeIsConfirmed(
    w: World, early: seq<Step>, hold: Step, late: seq<Step>, b: BookingId, h: int, now: int, rest: seq<Step>)
    requires HeldUntil(w, early, hold, late, b, h) && now <= h
    requires Allowed(w, early + [hold] + late + [ConfirmScript(b, now)] + rest)
    ensures ConfirmedOrAboutTo(After(w, early + [hold] + late + [ConfirmScript(b, now)] + rest), b)
  {
    var run, confirm := early + [hold] + late, ConfirmScript(b, now);
    HeldIsPayable(w, early, hold, late, b, h);
    AfterAppend(w, run + [confirm], rest);
    LastStep(w, run, confirm);
    SettlesForGood(After(w, run), b, hold.showtime, hold.reqs, h, now, rest);
    SettlingSaves(After(w, run + [confirm] + rest), b);
  }

  lemma LastStep(w: World, steps: seq<Step>, s: Step)
    requires Allowed(w, steps + [s])
    ensures Enabled(After(w, steps), s) && After(w, steps + [s]) == Next(After(w, steps), s)
  {
    assert (steps + [s])[..|steps|] == steps;
  }

  /** What a webhook does to the records of a payable booking. */
  ghost predicate PaysFor(w: World, u: World, b: BookingId, p: PaymentId)
    requires b in w.bookings && p in w.payments
  {
    && u.bookings == w.bookings[b := w.bookings[b].(status := BookingConfirmed)]
    && u.payments == w.payments[p := w.payments[p].(status := PaymentCompleted)]
  }

  lemma PayableWebhook(
    w: World, b: BookingId, p: PaymentId, showtime: ShowtimeId, reqs: seq<Request>, h: int, now: int)
    requires Payable(w, b, showtime, reqs, h) && b != [] && reqs != [] && Distinct(Ids(reqs)) && now <= h
    requires Idle(w, b) && p in w.payments && w.payments[p].booking == b && !w.payments[p].status.PaymentCompleted?
    ensures PaysFor(w, HookRun(w, p, HookSuccess, now), b, p)
  {
    var u := HookUpdateNext(Goto(w, b, HookFound(p, true)), b);
    ConfirmSettles(u, b, showtime, reqs, h, now);
  }

  /** The same for the webhook as one call: when it returns, the booking is confirmed. */
  lemma WebhookInTimeConfirms(
    w: World, early: seq<Step>, hold: Step, late: seq<Step>, b: BookingId, h: int, p: PaymentId, now: int)
    requires HeldUntil(w, early, hold, late, b, h) && now <= h
    requires var v := After(w, early + [hold] + late);
             Idle(v, b) && p in v.payments && v.payments[p].booking == b && !v.payments[p].status.PaymentCompleted?
    ensures var v := After(w, early + [hold] + late); PaysFor(v, HookRun(v, p, HookSuccess, now), b, p)
  {
    HeldIsPayable(w, early, hold, late, b, h);
    PayableWebhook(After(w, early + [hold] + late), b, p, hold.showtime, hold.reqs, h, now);
  }
}
