/**
 One payment under fire: the request that creates it and any number of webhook deliveries run
 concurrently, with no assumption that they take turns. Each step is one atomic Mongo access.
 */
module PaymentRaces {
  import opened Basics
  import opened BookingProtocol

  type Delivery = nat

  /** The request that creates the payment: not begun, record inserted, gateway answer stored. */
  datatype Creator = NotBegun | Inserted | Answered

  /** A delivery that has read the payment as not completed, or has won the completing update. */
  datatype Handler = ReadOpen(success: bool) | MustConfirm

  /** `completions` counts changes of the status to completed, `confirms` calls of confirmSeatsAfterPayment. */
  datatype Race = Race(
    record: Option<Payment>,
    creator: Creator,
    handlers: map<Delivery, Handler>,
    completions: nat,
    confirms: nat,
    releases: nat)

  datatype RaceStep =
    | Insert
    | StoreAnswer(transaction: Str)
    | Deliver(d: Delivery, transaction: Str, success: bool)
    | Update(d: Delivery)
    | CallConfirm(d: Delivery)

  const START := Race(None, NotBegun, map[], 0, 0, 0)

  /** The update after the gateway call has no guard on the status. */
  function GatewayAnswer(p: Payment, transaction: Str): Payment {
    p.(status := PaymentProcessing, transaction := Some(transaction))
  }

  predicate Completed(r: Race) {
    r.record.Some? && r.record.value.status.PaymentCompleted?
  }

  predicate CanStep(r: Race, s: RaceStep) {
    match s
    case Insert => r.creator.NotBegun?
    case StoreAnswer(_) => r.creator.Inserted? && r.record.Some?
    case Deliver(d, _, _) => d !in r.handlers
    case Update(d) => d in r.handlers && r.handlers[d].ReadOpen? && r.record.Some?
    case CallConfirm(d) => d in r.handlers && r.handlers[d].MustConfirm?
  }

  function RaceNext(r: Race, s: RaceStep): Race
    requires CanStep(r, s)
  {
    match s
    case Insert => r.(record := Some(Payment([], PaymentPending, None)), creator := Inserted)
    case StoreAnswer(tx) => r.(record := Some(GatewayAnswer(r.record.value, tx)), creator := Answered)
    case Deliver(d, tx, success) =>
      // found by transaction id, and not read as completed; otherwise the delivery ends here
      if r.record.Some? && r.record.value.transaction == Some(tx) && !Completed(r)
      then r.(handlers := r.handlers[d := ReadOpen(success)])
      else r
    case Update(d) =>
      if Completed(r) then r.(handlers := r.handlers - {d})
      else if r.handlers[d].success
      then r.(record := Some(r.record.value.(status := PaymentCompleted)),
              handlers := r.handlers[d := MustConfirm], completions := r.completions + 1)
      else r.(record := Some(r.record.value.(status := PaymentFailed)),
              handlers := r.handlers - {d}, releases := r.releases + 1)
    case CallConfirm(d) => r.(handlers := r.handlers - {d}, confirms := r.confirms + 1)
  }

  /**
   A delivery goes on only when its transaction id is the stored one and the payment is not completed; its update then
   takes effect unless another completed the payment first, and only a winning success goes on to confirm.
   */
  lemma DeliveryEffect(r: Race, d: Delivery, tx: Str, success: bool)
    requires d !in r.handlers
    ensures var found := r.record.Some? && r.record.value.transaction == Some(tx) &&
                         r.record.value.status != PaymentCompleted;
            var u := RaceNext(r, Deliver(d, tx, success));
            && (!found ==> u == r)
            && (found ==> u == r.(handlers := r.handlers[d := ReadOpen(success)]) && CanStep(u, Update(d)))
            && (found ==>
                  var v := RaceNext(u, Update(d));
                  && v.record == Some(r.record.value.(status := if success then PaymentCompleted else PaymentFailed))
                  && v.completions == r.completions + (if success then 1 else 0)
                  && v.releases == r.releases + (if success then 0 else 1)
                  && (CanStep(v, CallConfirm(d)) <==> success))
  {
  }

  /** An update that finds the payment completed changes nothing and calls nobody. */
  lemma LateUpdateEffect(r: Race, d: Delivery)
    requires CanStep(r, Update(d)) && r.record.value.status == PaymentCompleted
    ensures var u := RaceNext(r, Update(d));
            && u.record == r.record && d !in u.handlers
            && u.completions == r.completions && u.confirms == r.confirms && u.releases == r.releases
  {
  }

  /** A run; a step that cannot be taken at its turn is skipped. */
  function RunRace(r: Race, steps: seq<RaceStep>): Race {
    if steps == [] then r
    else
      var u := RunRace(r, steps[..|steps| - 1]);
      if CanStep(u, steps[|steps| - 1]) then RaceNext(u, steps[|steps| - 1]) else u
  }

  function Confirming(r: Race): set<Delivery> {
    set d | d in r.handlers && r.handlers[d].MustConfirm?
  }

  ghost predicate RaceInv(r: Race) {
    && (r.record.Some? <==> !r.creator.NotBegun?)
    && (r.creator.Inserted? ==> r.record.value == Payment([], PaymentPending, None))
    && (!r.creator.Answered? ==> r.handlers == map[] && r.completions == 0)
    && r.completions == (if Completed(r) then 1 else 0)
    && r.confirms + |Confirming(r)| == r.completions
  }

  lemma RaceStepInv(r: Race, s: RaceStep)
    requires RaceInv(r) && CanStep(r, s)
    ensures RaceInv(RaceNext(r, s))
    ensures Completed(r) ==> Completed(RaceNext(r, s))
  {
    var r' := RaceNext(r, s);
    match s
    case Insert => assert Confirming(r') == {};
    case StoreAnswer(_) => assert Confirming(r') == {};
    case Deliver(d, _, _) => assert Confirming(r') == Confirming(r);
    case Update(d) =>
      if !Completed(r) && r.handlers[d].success {
        assert Confirming(r') == Confirming(r) + {d};
      } else {
        assert Confirming(r') == Confirming(r);
      }
    case CallConfirm(d) => assert Confirming(r') == Confirming(r) - {d};
  }

  lemma {:induction false} RaceRunInv(r: Race, steps: seq<RaceStep>)
    requires RaceInv(r)
    ensures RaceInv(RunRace(r, steps))
    ensures Completed(r) ==> Completed(RunRace(r, steps))
  {
    if steps != [] {
      var n := |steps| - 1;
      RaceRunInv(r, steps[..n]);
      var u := RunRace(r, steps[..n]);
      if CanStep(u, steps[n]) {
        RaceStepInv(u, steps[n]);
      }
    }
  }

  lemma {:induction false} RaceAppend(r: Race, xs: seq<RaceStep>, ys: seq<RaceStep>)
    ensures RunRace(r, xs + ys) == RunRace(RunRace(r, xs), ys)
  {
    if ys == [] {
      assert xs + ys == xs;
    } else {
      var n := |ys| - 1;
      assert (xs + ys)[..|xs + ys| - 1] == xs + ys[..n];
      RaceAppend(r, xs, ys[..n]);
    }
  }

  /**
   Over every interleaving: the payment enters `completed` at most once and then never leaves it, and the
   seats are confirmed at most once, only after that, and exactly once when no winning delivery is left.
   */
  lemma CompletedOnceForever(early: seq<RaceStep>, late: seq<RaceStep>)
    ensures var r, t := RunRace(START, early), RunRace(START, early + late);
            && t.completions <= 1 && t.confirms <= t.completions
            && (t.completions == 1 <==> Completed(t))
            && (Completed(t) && Confirming(t) == {} ==> t.confirms == 1)
            && (Completed(r) ==> Completed(t) && t.completions == r.completions)
  {
    assert Confirming(START) == {};
    RaceRunInv(START, early);
    RaceAppend(START, early, late);
    RaceRunInv(RunRace(START, early), late);
  }

  /**
   The unguarded update is what this rests on: run again once a webhook has completed the payment, it would
   reopen it, and the next delivery would complete it and confirm the seats a second time.
   */
  lemma SecondAnswerReopens(tx: Str)
    ensures var paid := RunRace(START, [Insert, StoreAnswer(tx), Deliver(0, tx, true), Update(0), CallConfirm(0)]);
            && Completed(paid)
            && var reopened := paid.(record := Some(GatewayAnswer(paid.record.value, tx)));
               var again := RunRace(reopened, [Deliver(1, tx, true), Update(1), CallConfirm(1)]);
               !Completed(reopened) && again.completions == 2 && again.confirms == 2
  {
    var r1 := RaceNext(START, Insert);
    var r2 := RaceNext(r1, StoreAnswer(tx));
    var r3 := RaceNext(r2, Deliver(0, tx, true));
    var r4 := RaceNext(r3, Update(0));
    var r5 := RaceNext(r4, CallConfirm(0));
    RunRaceThree(START, Insert, StoreAnswer(tx), Deliver(0, tx, true));
    RunRaceThree(r3, Update(0), CallConfirm(0), CallConfirm(0));
    RaceAppend(START, [Insert, StoreAnswer(tx), Deliver(0, tx, true)], [Update(0), CallConfirm(0)]);
    assert [Insert, StoreAnswer(tx), Deliver(0, tx, true)] + [Update(0), CallConfirm(0)] ==
        [Insert, StoreAnswer(tx), Deliver(0, tx, true), Update(0), CallConfirm(0)];
    var reopened := r5.(record := Some(GatewayAnswer(r5.record.value, tx)));
    RunRaceThree(reopened, Deliver(1, tx, true), Update(1), CallConfirm(1));
  }

  function StepOrSkip(r: Race, s: RaceStep): Race {
    if CanStep(r, s) then RaceNext(r, s) else r
  }

  lemma RunRaceThree(r: Race, a: RaceStep, b: RaceStep, c: RaceStep)
    ensures RunRace(r, [a, b]) == StepOrSkip(StepOrSkip(r, a), b)
    ensures RunRace(r, [a, b, c]) == StepOrSkip(StepOrSkip(StepOrSkip(r, a), b), c)
  {
    assert [a][..0] == [];
    assert [a, b][..1] == [a];
    assert [a, b, c][..2] == [a, b];
    assert RunRace(r, [a]) == StepOrSkip(r, a);
  }
}
