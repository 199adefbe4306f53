/**
 The service methods are runs of the protocol: what each method of BookingBackend, run alone, does to the world
 is what a list of enabled protocol steps does. The lemmas of BookingSafety are about all runs of steps, those
 in which the steps of several methods interleave included.
 */
module BookingRuns {
  import opened Basics
  import opened SeatModel
  import opened BookingProtocol
  import opened BookingService

  /** `steps` are enabled one after the other from `w`, and lead to `w'`. */
  ghost predicate Follows(w: World, steps: seq<Step>, w': World) {
    Allowed(w, steps) && After(w, steps) == w'
  }

  lemma FollowsOne(w: World, s: Step)
    requires Enabled(w, s)
    ensures Follows(w, [s], Next(w, s))
  {
    assert [s][..0] == [];
    assert Allowed(w, [s][..0]) && After(w, [s][..0]) == w;
  }

  lemma FollowsJoin(w: World, xs: seq<Step>, u: World, ys: seq<Step>, v: World)
    requires Follows(w, xs, u) && Follows(u, ys, v)
    ensures Follows(w, xs + ys, v)
  {
    AfterAppend(w, xs, ys);
  }

  lemma FollowsTwo(w: World, s: Step, u: World, t: Step)
    requires Enabled(w, s) && u == Next(w, s) && Enabled(u, t)
    ensures Follows(w, [s, t], Next(u, t))
  {
    FollowsOne(w, s);
    FollowsOne(u, t);
    FollowsJoin(w, [s], u, [t], Next(u, t));
    assert [s] + [t] == [s, t];
  }

  lemma FollowsThree(w: World, s: Step, u: World, t: Step, v: World, r: Step)
    requires Enabled(w, s) && u == Next(w, s) && Enabled(u, t) && v == Next(u, t) && Enabled(v, r)
    ensures Follows(w, [s, t, r], Next(v, r))
  {
    FollowsTwo(w, s, u, t);
    FollowsOne(v, r);
    FollowsJoin(w, [s, t], v, [r], Next(v, r));
    assert [s, t] + [r] == [s, t, r];
  }

  // ----- holdSeats -----

  function HoldSteps(
    w: World, b: BookingId, showtime: ShowtimeId, reqs: seq<Request>,
    reserveMs: int, now: int, insertMs: int, insertSucceeds: bool): seq<Step>
  {
    var hold := Hold(b, showtime, reqs, reserveMs, now);
    if !ReserveOutcome(StoreOf(w, showtime), b, reserveMs / 1000 + HOLD_SECONDS, reqs, now).Reserved? then [hold]
    else if insertSucceeds then [hold, HoldInsert(b, insertMs)]
    else [hold, HoldInsertFails(b), HoldUndo(b)]
  }

  lemma HoldIsSteps(
    w: World, b: BookingId, showtime: ShowtimeId, reqs: seq<Request>,
    reserveMs: int, now: int, insertMs: int, insertSucceeds: bool)
    requires b != [] && b !in w.bookings && b !in w.pc
    ensures Follows(w, HoldSteps(w, b, showtime, reqs, reserveMs, now, insertMs, insertSucceeds),
                    HoldRun(w, b, showtime, reqs, reserveMs, now, insertMs, insertSucceeds))
  {
    var hold := Hold(b, showtime, reqs, reserveMs, now);
    var u := HoldNext(w, b, showtime, reqs, reserveMs, now);
    if b !in u.pc {
      FollowsOne(w, hold);
    } else if insertSucceeds {
      FollowsTwo(w, hold, u, HoldInsert(b, insertMs));
    } else {
      FollowsThree(w, hold, u, HoldInsertFails(b), Goto(u, b, HoldRollback(showtime, reqs)), HoldUndo(b));
    }
  }

  // ----- cancelBooking and releaseExpiredHolds -----

  lemma CancelIsSteps(w: World, b: BookingId)
    requires IdlePending(w, b)
    ensures Follows(w, [CancelFind(b), CancelScript(b), CancelSave(b)], CancelRun(w, b))
  {
    var u := Goto(w, b, CancelFound);
    FollowsThree(w, CancelFind(b), u, CancelScript(b), Goto(ReleaseOwn(u, b), b, CancelReleased), CancelSave(b));
  }

  function ExpireFinds(order: seq<BookingId>, t: int): seq<Step> {
    if order == [] then [] else ExpireFinds(order[..|order| - 1], t) + [ExpireFind(order[|order| - 1], t)]
  }

  function ExpireSaves(order: seq<BookingId>, now: int): seq<Step> {
    if order == [] then []
    else
      var n := |order| - 1;
      ExpireSaves(order[..n], now) + [ExpireScript(order[n], now), ExpireSave(order[n])]
  }

  lemma ElemsLast(order: seq<BookingId>)
    requires order != []
    ensures var n := |order| - 1; Elems(order) == Elems(order[..n]) + {order[n]}
  {
    assert order == order[..|order| - 1] + [order[|order| - 1]];
  }

  ghost predicate AllDue(w: World, order: seq<BookingId>, t: int) {
    Distinct(order) && forall b :: b in order ==> IdlePending(w, b) && w.bookings[b].holdExpiresAt < t
  }

  lemma FindOneMore(w: World, due: set<BookingId>, b: BookingId)
    ensures Goto(FindDue(w, due), b, ExpireFound) == FindDue(w, due + {b})
    ensures b !in due && IdlePending(w, b) ==> IdlePending(FindDue(w, due), b)
  {
    assert w.pc + (map c | c in due + {b} :: ExpireFound) == (w.pc + map c | c in due :: ExpireFound)[b := ExpireFound];
  }

  /** One query is as many finds, one after the other, with no other step in between. */
  lemma {:induction false} FindDueIsSteps(w: World, order: seq<BookingId>, t: int)
    requires AllDue(w, order, t)
    ensures Follows(w, ExpireFinds(order, t), FindDue(w, Elems(order)))
  {
    if order == [] {
      assert FindDue(w, Elems(order)) == w;
    } else {
      var n := |order| - 1;
      var p, b := order[..n], order[n];
      FindDueIsSteps(w, p, t);
      ElemsLast(order);
      assert b in order && b !in p;
      FindOneMore(w, Elems(p), b);
      FollowsOne(FindDue(w, Elems(p)), ExpireFind(b, t));
      FollowsJoin(w, ExpireFinds(p, t), FindDue(w, Elems(p)), [ExpireFind(b, t)], FindDue(w, Elems(order)));
    }
  }

  /** The records once the job has saved `done` of the bookings it found. */
  ghost predicate ExpiredExactly(w: World, u: World, done: set<BookingId>) {
    && u.bookings.Keys == w.bookings.Keys
    && forall b :: b in w.bookings ==>
         u.bookings[b] == if b in done then w.bookings[b].(status := BookingExpired) else w.bookings[b]
  }

  lemma ExpireIsSteps(w: World, b: BookingId, now: int)
    requires b in w.bookings && b in w.pc && w.pc[b].ExpireFound?
    ensures Follows(w, [ExpireScript(b, now), ExpireSave(b)], ExpireStep(w, b))
  {
    FollowsTwo(w, ExpireScript(b, now), Goto(ReleaseOwn(w, b), b, ExpireReleased), ExpireSave(b));
  }

  lemma ExpireStepRecords(w: World, b: BookingId)
    requires b in w.bookings
    ensures ExpireStep(w, b).bookings == w.bookings[b := w.bookings[b].(status := BookingExpired)]
    ensures ExpireStep(w, b).pc == w.pc - {b}
  {
  }

  /** What is still in flight after one more booking. */
  lemma StillDue(w: World, left: set<BookingId>, b: BookingId)
    requires b in left && b !in w.pc
    ensures FindDue(w, left).pc - {b} == FindDue(w, left - {b}).pc
    ensures b in FindDue(w, left).pc && FindDue(w, left).pc[b].ExpireFound?
  {
  }

  /** The world once the listed ones of the `due` bookings are saved; the rest is still in flight. */
  ghost predicate Saved(w: World, u: World, due: set<BookingId>, done: set<BookingId>) {
    ExpiredExactly(w, u, done) && u.pc == FindDue(w, due - done).pc
  }

  lemma SavedOneMore(w: World, u: World, due: set<BookingId>, done: set<BookingId>, b: BookingId)
    requires Saved(w, u, due, done) && b in due && b !in done && Idle(w, b)
    ensures b in u.bookings && b in u.pc && u.pc[b].ExpireFound?
    ensures Saved(w, ExpireStep(u, b), due, done + {b})
  {
    StillDue(w, due - done, b);
    ExpireStepRecords(u, b);
    assert due - (done + {b}) == due - done - {b};
  }

  lemma {:induction false} ExpireEachIsSteps(w: World, order: seq<BookingId>, due: set<BookingId>, now: int)
    requires Distinct(order) && Elems(order) <= due && forall b :: b in order ==> Idle(w, b)
    ensures var v := FindDue(w, due);
            && Follows(v, ExpireSaves(order, now), ExpireEach(v, order))
            && Saved(w, ExpireEach(v, order), due, Elems(order))
  {
    var v := FindDue(w, due);
    if order == [] {
      assert due - Elems(order) == due;
    } else {
      var n := |order| - 1;
      var p, b := order[..n], order[n];
      ElemsLast(order);
      ExpireEachIsSteps(w, p, due, now);
      assert b in order && b !in p;
      SavedOneMore(w, ExpireEach(v, p), due, Elems(p), b);
      ExpireOneMore(v, p, ExpireEach(v, p), b, now);
      assert ExpireSaves(order, now) == ExpireSaves(p, now) + [ExpireScript(b, now), ExpireSave(b)];
    }
  }

  lemma ExpireOneMore(v: World, p: seq<BookingId>, u: World, b: BookingId, now: int)
    requires Follows(v, ExpireSaves(p, now), u) && b in u.bookings && b in u.pc && u.pc[b].ExpireFound?
    ensures Follows(v, ExpireSaves(p, now) + [ExpireScript(b, now), ExpireSave(b)], ExpireStep(u, b))
  {
    ExpireIsSteps(u, b, now);
    FollowsJoin(v, ExpireSaves(p, now), u, [ExpireScript(b, now), ExpireSave(b)], ExpireStep(u, b));
  }

  /**
   One pass of the cron job: all its finds first, as it has one query, then script and save for each booking;
   exactly the listed bookings become expired, and nothing is left in flight.
   */
  lemma ExpireRunIsSteps(w: World, order: seq<BookingId>, t: int, now: int)
    requires AllDue(w, order, t)
    ensures Follows(w, ExpireFinds(order, t) + ExpireSaves(order, now), ExpireRun(w, order))
    ensures ExpiredExactly(w, ExpireRun(w, order), Elems(order)) && ExpireRun(w, order).pc == w.pc
  {
    var due := Elems(order);
    FindDueIsSteps(w, order, t);
    ExpireEachIsSteps(w, order, due, now);
    FollowsJoin(w, ExpireFinds(order, t), FindDue(w, due), ExpireSaves(order, now), ExpireRun(w, order));
    assert FindDue(w, due - due).pc == w.pc;
  }

  // ----- createPayment -----

  function PaySteps(w: World, b: BookingId, p: PaymentId, tx: Str, t: int, createSucceeds: bool): seq<Step> {
    if HasLivePayment(w, b) then [PayValidate(b, t), PayLookup(b)]
    else if !createSucceeds then [PayValidate(b, t), PayLookup(b)] + [PayCreateFails(b)]
    else [PayValidate(b, t), PayLookup(b)] + [PayCreate(b, p), PayGateway(b, tx)]
  }

  lemma PayIsSteps(w: World, b: BookingId, p: PaymentId, tx: Str, t: int, createSucceeds: bool)
    requires IdlePending(w, b) && w.bookings[b].holdExpiresAt >= t
    requires p !in w.payments && forall q :: q in w.payments ==> w.payments[q].transaction != Some(tx)
    ensures Follows(w, PaySteps(w, b, p, tx, t, createSucceeds), PayRun(w, b, p, tx, t, createSucceeds))
  {
    var u, v := Goto(w, b, PayValidated), Goto(Goto(w, b, PayValidated), b, PayUnclaimed);
    var first := [PayValidate(b, t), PayLookup(b)];
    FollowsTwo(w, PayValidate(b, t), u, PayLookup(b));
    assert HasLivePayment(u, b) == HasLivePayment(w, b);
    if !HasLivePayment(w, b) {
      if createSucceeds {
        PayInsertIsSteps(v, b, p, tx);
        FollowsJoin(w, first, v, [PayCreate(b, p), PayGateway(b, tx)], PayInsertRun(v, b, p, tx));
      } else {
        PayFailsIsSteps(w, first, v, b);
        assert Finish(v, b) == Finish(u, b);
      }
    }
  }

  lemma PayFailsIsSteps(w: World, first: seq<Step>, v: World, b: BookingId)
    requires Follows(w, first, v) && b in v.pc && v.pc[b].PayUnclaimed?
    ensures Follows(w, first + [PayCreateFails(b)], Finish(v, b))
  {
    FollowsOne(v, PayCreateFails(b));
    FollowsJoin(w, first, v, [PayCreateFails(b)], Finish(v, b));
  }

  lemma PayInsertIsSteps(v: World, b: BookingId, p: PaymentId, tx: Str)
    requires b in v.pc && v.pc[b].PayUnclaimed?
    requires p !in v.payments && forall q :: q in v.payments ==> v.payments[q].transaction != Some(tx)
    ensures Follows(v, [PayCreate(b, p), PayGateway(b, tx)], PayInsertRun(v, b, p, tx))
  {
    var x := Goto(SetPayment(v, p, Payment(b, PaymentPending, None)), b, PayCreated(p));
    FollowsTwo(v, PayCreate(b, p), x, PayGateway(b, tx));
  }

  // ----- handleWebhook -----

  function ConfirmSteps(w: World, b: BookingId, now: int): seq<Step> {
    if ConfirmWillDo(w, b, now) then [ConfirmScript(b, now), ConfirmSave(b)] else [ConfirmScript(b, now)]
  }

  lemma ConfirmIsSteps(w: World, b: BookingId, now: int)
    requires b in w.bookings && b in w.pc && w.pc[b].HookCompleted?
    ensures Follows(w, ConfirmSteps(w, b, now), ConfirmRun(w, b, now))
  {
    var u := ConfirmScriptNext(w, b, now);
    if ConfirmWillDo(w, b, now) {
      FollowsTwo(w, ConfirmScript(b, now), u, ConfirmSave(b));
    } else {
      FollowsOne(w, ConfirmScript(b, now));
    }
  }

  function ReleaseSteps(w: World, b: BookingId): seq<Step>
    requires b in w.bookings
  {
    if b in ReleaseScriptNext(w, b).pc then [ReleaseScript(b), ReleaseSave(b)] else [ReleaseScript(b)]
  }

  lemma ReleaseIsSteps(w: World, b: BookingId)
    requires b in w.bookings && b in w.pc && w.pc[b].HookFailed?
    ensures Follows(w, ReleaseSteps(w, b), ReleaseRun(w, b))
  {
    var u := ReleaseScriptNext(w, b);
    if b in u.pc {
      FollowsTwo(w, ReleaseScript(b), u, ReleaseSave(b));
    } else {
      FollowsOne(w, ReleaseScript(b));
    }
  }

  function HookSteps(w: World, p: PaymentId, status: HookStatus, now: int): seq<Step>
    requires p in w.payments && w.payments[p].booking in w.bookings
  {
    var b := w.payments[p].booking;
    var v := HookUpdateNext(Goto(w, b, HookFound(p, status.HookSuccess?)), b);
    [HookFind(b, p, status.HookSuccess?), HookUpdate(b)] +
    if status.HookSuccess? then ConfirmSteps(v, b, now) else ReleaseSteps(v, b)
  }

  /** A webhook that finds its payment not completed: two payment accesses, then a confirmation or a release. */
  lemma HookIsSteps(w: World, p: PaymentId, status: HookStatus, now: int)
    requires p in w.payments && w.payments[p].transaction.Some? && !w.payments[p].status.PaymentCompleted?
    requires Idle(w, w.payments[p].booking) && !status.HookPending?
    ensures Follows(w, HookSteps(w, p, status, now), HookRun(w, p, status, now))
  {
    var b, success := w.payments[p].booking, status.HookSuccess?;
    var u := Goto(w, b, HookFound(p, success));
    var v := HookUpdateNext(u, b);
    var first := [HookFind(b, p, success), HookUpdate(b)];
    FollowsTwo(w, HookFind(b, p, success), u, HookUpdate(b));
    if success {
      ConfirmIsSteps(v, b, now);
      FollowsJoin(w, first, v, ConfirmSteps(v, b, now), ConfirmRun(v, b, now));
    } else {
      ReleaseIsSteps(v, b);
      FollowsJoin(w, first, v, ReleaseSteps(v, b), ReleaseRun(v, b));
    }
  }
}
