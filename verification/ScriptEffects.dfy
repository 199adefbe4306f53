/**
 What the scripts do to single seats and to single entries of a list, said on the fields of the records: which entries
 a reply lists and why, which seats change and to what, and that every other seat stays exactly as it was.
 */
module ScriptEffects {
  import opened Basics
  import opened SeatModel
  import opened SeatArguments
  import opened SeatScripts
  import opened ScriptReplies
  import opened SeatRuns
  import opened SeatCounter

  /** Some positions below `n`, in increasing order. */
  predicate Positions(at: seq<nat>, n: nat) {
    (forall j :: 0 <= j < |at| ==> at[j] < n) && forall i, j :: 0 <= i < j < |at| ==> at[i] < at[j]
  }

  lemma PositionsSnoc(at: seq<nat>, n: nat)
    requires Positions(at, n)
    ensures Positions(at + [n], n + 1) && forall i: nat :: i in at + [n] <==> i in at || i == n
  {
    assert (at + [n])[|at|] == n;
  }

  // ----- events -----

  /** An event of a run is what calling its script does, with its loops, on the store. */
  method Execute(store: SeatStore, e: Event)
    requires e.op.Reserve? ==> AllPlain(e.op.reqs)
    modifies store
    ensures store.Snapshot() == Apply(old(store.Snapshot()), e)
  {
    match e.op
    case Reserve(b, expire, reqs) =>
      PrintedIsGiven(store.Snapshot(), b, expire, reqs, e.now);
      var _ := store.BatchReserve(b, expire, |reqs|, PrintRequests(reqs), e.now);
    case ReserveOne(b, expire, r) =>
      var _ := store.ReserveOne(b, expire, r, e.now);
    case Confirm(b, ids) =>
      var _ := store.Confirm(b, ids, e.now);
    case Release(b, ids) =>
      var _ := store.Release(b, ids);
    case Extend(b, ids, extra) =>
      var _ := store.ExtendHold(b, ids, extra, e.now);
    case Cleanup =>
      var _, _ := store.Cleanup(e.now);
    case Read(ids) =>
      if ids == [] {
        var _ := store.ReadAll(e.now);
      } else {
        var _ := store.ReadSome(ids, e.now);
      }
  }

  // ----- reserve -----

  predicate Blocked(seats: Seats, id: SeatId, now: int) {
    id !in seats || seats[id].Booked? || (seats[id].Held? && seats[id].until > now)
  }

  predicate RefusalFits(seats: Seats, u: UnavailableSeat, now: int) {
    && (u.reason == SeatNotFound <==> u.id !in seats)
    && (u.reason == SeatBooked <==> u.id in seats && seats[u.id].Booked?)
    && (u.reason.SeatHeld? <==> u.id in seats && seats[u.id].Held? && seats[u.id].until > now)
    && (u.reason.SeatHeld? ==> u.reason.heldBy == seats[u.id].owner)
  }

  /** `refused` has, in order, each of the first `n` entries that is blocked, once and under its own id. */
  ghost predicate ListsBlocked(
    refused: seq<UnavailableSeat>, at: seq<nat>, seats: Seats, reqs: seq<Request>, n: nat, now: int)
    requires n <= |reqs|
  {
    && Positions(at, n) && |refused| == |at|
    && (forall i :: 0 <= i < n ==> (i in at <==> Blocked(seats, reqs[i].id, now)))
    && forall j :: 0 <= j < |at| ==> refused[j].id == reqs[at[j]].id && RefusalFits(seats, refused[j], now)
  }

  lemma LastBlocked(seats: Seats, reqs: seq<Request>, n: nat, now: int) returns (last: UnavailableSeat)
    requires n < |reqs|
    ensures Refusals(seats, reqs[..n + 1], now) ==
            Refusals(seats, reqs[..n], now) + if Blocked(seats, reqs[n].id, now) then [last] else []
    ensures Blocked(seats, reqs[n].id, now) ==> last.id == reqs[n].id && RefusalFits(seats, last, now)
  {
    assert reqs[..n + 1][..n] == reqs[..n];
    var verdict := Check(seats, reqs[n].id, now);
    last := UnavailableSeat(reqs[n].id, if verdict.Some? then verdict.value else SeatNotFound);
  }

  lemma ListsBlockedSnoc(
    refused: seq<UnavailableSeat>, at: seq<nat>, last: UnavailableSeat,
    seats: Seats, reqs: seq<Request>, n: nat, now: int)
    requires n < |reqs| && ListsBlocked(refused, at, seats, reqs, n, now)
    ensures !Blocked(seats, reqs[n].id, now) ==> ListsBlocked(refused, at, seats, reqs, n + 1, now)
    ensures
      Blocked(seats, reqs[n].id, now) && last.id == reqs[n].id && RefusalFits(seats, last, now) ==>
        ListsBlocked(refused + [last], at + [n], seats, reqs, n + 1, now)
  {
    PositionsSnoc(at, n);
  }

  lemma {:induction false} BlockedEntries(seats: Seats, reqs: seq<Request>, n: nat, now: int) returns (at: seq<nat>)
    requires n <= |reqs|
    ensures ListsBlocked(Refusals(seats, reqs[..n], now), at, seats, reqs, n, now)
  {
    at := [];
    if n > 0 {
      var m := n - 1;
      at := BlockedEntries(seats, reqs, m, now);
      var last := LastBlocked(seats, reqs, m, now);
      ListsBlockedSnoc(Refusals(seats, reqs[..m], now), at, last, seats, reqs, m, now);
      if Blocked(seats, reqs[m].id, now) {
        at := at + [m];
      }
      assert reqs[..n] == reqs[..m + 1];
    }
  }

  /** A valid batch is refused when some entry is blocked; the reply then lists exactly the blocked entries. */
  lemma RefusedBatch(s: Store, b: BookingId, expire: int, reqs: seq<Request>, now: int) returns (at: seq<nat>)
    ensures ReserveOutcome(s, b, expire, reqs, now).SeatsUnavailable? <==>
            && b != [] && expire > 0 && reqs != []
            && exists i :: 0 <= i < |reqs| && Blocked(s.seats, reqs[i].id, now)
    ensures ReserveOutcome(s, b, expire, reqs, now).SeatsUnavailable? ==>
              ListsBlocked(ReserveOutcome(s, b, expire, reqs, now).unavailable, at, s.seats, reqs, |reqs|, now)
  {
    at := BlockedEntries(s.seats, reqs, |reqs|, now);
    assert reqs[..|reqs|] == reqs;
    ReserveGranted(s, b, expire, reqs, now);
  }

  predicate LastNaming(reqs: seq<Request>, k: SeatId, i: nat) {
    i < |reqs| && reqs[i].id == k && forall j :: i < j < |reqs| ==> reqs[j].id != k
  }

  lemma {:induction false} TypeForLast(reqs: seq<Request>, k: SeatId, i: nat)
    requires k in Ids(reqs) && LastNaming(reqs, k, i)
    ensures TypeFor(reqs, k) == reqs[i].seatType
  {
    var n := |reqs| - 1;
    if reqs[n].id != k {
      assert Ids(reqs[..n])[i] == k;
      TypeForLast(reqs[..n], k, i);
    }
  }

  /** A granted batch holds every listed seat with the type its last entry asks for; nothing else changes. */
  lemma ReservedSeats(s: Store, b: BookingId, expire: int, reqs: seq<Request>, now: int, k: SeatId)
    requires k in s.seats
    ensures var r, t := ReserveOutcome(s, b, expire, reqs, now), ReserveStore(s, b, expire, reqs, now);
            && k in t.seats
            && (r.Reserved? ==> r == Reserved(|reqs|, b, expire))
            && (!r.Reserved? ==> t == s)
            && (k !in Ids(reqs) ==> t.seats[k] == s.seats[k])
            && (r.Reserved? ==>
                  forall i: nat :: LastNaming(reqs, k, i) ==> t.seats[k] == Held(reqs[i].seatType, b, expire))
  {
    forall i: nat | LastNaming(reqs, k, i)
      ensures k in Ids(reqs) && TypeFor(reqs, k) == reqs[i].seatType
    {
      assert Ids(reqs)[i] == k;
      TypeForLast(reqs, k, i);
    }
  }

  lemma {:induction false} AvailablePositions(seats: Seats, reqs: seq<Request>, n: nat) returns (at: seq<nat>)
    requires n <= |reqs|
    ensures Positions(at, n) && AvailableEntries(seats, reqs[..n]) == |at|
    ensures forall i :: 0 <= i < n ==> (i in at <==> reqs[i].id in seats && seats[reqs[i].id].Available?)
  {
    at := [];
    if n > 0 {
      var m := n - 1;
      at := AvailablePositions(seats, reqs, m);
      assert reqs[..n][..m] == reqs[..m];
      if reqs[m].id in seats && seats[reqs[m].id].Available? {
        PositionsSnoc(at, m);
        at := at + [m];
      }
    }
  }

  /** A granted batch lowers the counter by one for every entry, repeated or not, that names an available seat. */
  lemma ReservedCounter(s: Store, b: BookingId, expire: int, reqs: seq<Request>, now: int) returns (at: seq<nat>)
    ensures Positions(at, |reqs|)
    ensures forall i :: 0 <= i < |reqs| ==> (i in at <==> reqs[i].id in s.seats && s.seats[reqs[i].id].Available?)
    ensures ReserveOutcome(s, b, expire, reqs, now).Reserved? ==>
              ReserveStore(s, b, expire, reqs, now).available == s.available - |at|
  {
    at := AvailablePositions(s.seats, reqs, |reqs|);
    assert reqs[..|reqs|] == reqs;
  }

  /** The drift of a granted batch is the number of those entries that repeat an earlier one. */
  lemma {:induction false} DriftEntries(seats: Seats, reqs: seq<Request>, n: nat) returns (at: seq<nat>)
    requires n <= |reqs|
    ensures Positions(at, n) && RepeatedAvailable(seats, reqs[..n]) == |at|
    ensures forall i :: 0 <= i < n ==>
              (i in at <==>
               reqs[i].id in seats && seats[reqs[i].id].Available? && reqs[i].id in Ids(reqs)[..i])
  {
    at := [];
    if n > 0 {
      var m := n - 1;
      at := DriftEntries(seats, reqs, m);
      assert reqs[..n][..m] == reqs[..m] && Ids(reqs[..m]) == Ids(reqs)[..m];
      if reqs[m].id in seats && seats[reqs[m].id].Available? && reqs[m].id in Ids(reqs)[..m] {
        PositionsSnoc(at, m);
        at := at + [m];
      }
    }
  }

  /** The single script, for any booking id and expiry. */
  lemma ReservedOneSeat(s: Store, b: BookingId, expire: int, r: Request, now: int)
    ensures var reply, t := ReserveOneOutcome(s, r, now), ReserveOneStore(s, b, expire, r, now);
            && (reply.SingleNotFound? <==> r.id !in s.seats)
            && (reply.SingleBooked? <==> r.id in s.seats && s.seats[r.id].Booked?)
            && (reply.SingleHeld? <==> r.id in s.seats && s.seats[r.id].Held? && s.seats[r.id].until > now)
            && (Blocked(s.seats, r.id, now) ==> t == s)
            && (!Blocked(s.seats, r.id, now) ==> t.seats == s.seats[r.id := Held(r.seatType, b, expire)])
  {
  }

  // ----- confirm -----

  predicate LiveHold(seats: Seats, b: BookingId, id: SeatId, now: int) {
    id in seats && seats[id].Held? && seats[id].owner == b && seats[id].until >= now
  }

  /** A confirm books the listed live holds of its booking, and leaves every other seat and the counter alone. */
  lemma ConfirmedSeats(s: Store, b: BookingId, ids: seq<SeatId>, now: int, k: SeatId)
    requires k in s.seats
    ensures var t := ConfirmStore(s, b, ids, now);
            && t.seats.Keys == s.seats.Keys && t.available == s.available
            && t.seats[k] == if b != [] && k in ids && LiveHold(s.seats, b, k, now)
                             then Booked(s.seats[k].seatType, b)
                             else s.seats[k]
  {
  }

  /** Over every run: a seat that becomes booked was a live hold of its owner, listed in the owner's confirm. */
  lemma OnlyLiveHoldsAreBooked(s: Store, es: seq<Event>, i: nat, k: SeatId)
    requires i < |es| && k in s.seats
    ensures var u, v := Run(s, es[..i]), Run(s, es[..i + 1]);
            && k in u.seats && k in v.seats
            && (v.seats[k].Booked? && v.seats[k] != u.seats[k] ==>
                  && es[i].op.Confirm? && es[i].op.b == v.seats[k].owner && k in es[i].op.ids
                  && LiveHold(u.seats, v.seats[k].owner, k, es[i].now)
                  && v.seats[k].seatType == u.seats[k].seatType)
  {
    RunStep(s, es, i);
    FieldsKeptRun(s, es[..i]);
    FieldsKept(Run(s, es[..i]), es[i]);
    var u, e := Run(s, es[..i]), es[i];
    if e.op.Confirm? {
      ConfirmedSeats(u, e.op.b, e.op.ids, e.now, k);
    }
  }

  /** Why an entry fails to be confirmed; `again` when an earlier entry names the same seat. */
  predicate ConfirmFailureFits(seats: Seats, b: BookingId, f: FailedSeat, again: bool, now: int) {
    && (f.reason == NotFound <==> f.id !in seats)
    && (f.reason == HoldExpired <==>
          f.id in seats && seats[f.id].Held? && seats[f.id].owner == b && seats[f.id].until < now)
    && (f.reason.WrongBooking? <==> f.id in seats && seats[f.id].Held? && seats[f.id].owner != b)
    && (f.reason.WrongBooking? ==> f.reason.heldBy == Some(seats[f.id].owner))
    && (f.reason == NotHeld(IsAvailable) <==> f.id in seats && seats[f.id].Available?)
    && (f.reason == NotHeld(IsBooked) <==>
          f.id in seats && (seats[f.id].Booked? || (again && LiveHold(seats, b, f.id, now))))
  }

  predicate Unconfirmed(seats: Seats, b: BookingId, ids: seq<SeatId>, i: nat, now: int)
    requires i < |ids|
  {
    !LiveHold(seats, b, ids[i], now) || ids[i] in ids[..i]
  }

  /** `failed` has, in order, those of the first `n` entries that are no live hold of `b` or repeat an earlier one. */
  ghost predicate ListsUnconfirmed(
    failed: seq<FailedSeat>, at: seq<nat>, seats: Seats, b: BookingId, ids: seq<SeatId>, n: nat, now: int)
    requires n <= |ids|
  {
    && Positions(at, n) && |failed| == |at|
    && (forall i :: 0 <= i < n ==> (i in at <==> Unconfirmed(seats, b, ids, i, now)))
    && forall j :: 0 <= j < |at| ==>
         failed[j].id == ids[at[j]] && ConfirmFailureFits(seats, b, failed[j], ids[at[j]] in ids[..at[j]], now)
  }

  lemma LastUnconfirmed(seats: Seats, b: BookingId, ids: seq<SeatId>, n: nat, now: int) returns (last: FailedSeat)
    requires n < |ids|
    ensures ConfirmFailures(seats, b, ids[..n + 1], now) ==
            ConfirmFailures(seats, b, ids[..n], now) + if Unconfirmed(seats, b, ids, n, now) then [last] else []
    ensures Unconfirmed(seats, b, ids, n, now) ==>
              last.id == ids[n] && ConfirmFailureFits(seats, b, last, ids[n] in ids[..n], now)
  {
    assert ids[..n + 1][..n] == ids[..n];
    var verdict := ConfirmVerdict(ConfirmAll(seats, b, ids[..n], now), b, ids[n], now);
    last := FailedSeat(ids[n], if verdict.Some? then verdict.value else NotFound);
  }

  lemma ListsUnconfirmedSnoc(
    failed: seq<FailedSeat>, at: seq<nat>, last: FailedSeat,
    seats: Seats, b: BookingId, ids: seq<SeatId>, n: nat, now: int)
    requires n < |ids| && ListsUnconfirmed(failed, at, seats, b, ids, n, now)
    ensures !Unconfirmed(seats, b, ids, n, now) ==> ListsUnconfirmed(failed, at, seats, b, ids, n + 1, now)
    ensures
      && Unconfirmed(seats, b, ids, n, now)
      && last.id == ids[n] && ConfirmFailureFits(seats, b, last, ids[n] in ids[..n], now) ==>
        ListsUnconfirmed(failed + [last], at + [n], seats, b, ids, n + 1, now)
  {
    PositionsSnoc(at, n);
  }

  lemma {:induction false} UnconfirmedEntries(seats: Seats, b: BookingId, ids: seq<SeatId>, n: nat, now: int)
    returns (at: seq<nat>)
    requires n <= |ids|
    ensures ListsUnconfirmed(ConfirmFailures(seats, b, ids[..n], now), at, seats, b, ids, n, now)
  {
    at := [];
    if n > 0 {
      var m := n - 1;
      at := UnconfirmedEntries(seats, b, ids, m, now);
      var last := LastUnconfirmed(seats, b, ids, m, now);
      ListsUnconfirmedSnoc(ConfirmFailures(seats, b, ids[..m], now), at, last, seats, b, ids, m, now);
      if Unconfirmed(seats, b, ids, m, now) {
        at := at + [m];
      }
      assert ids[..n] == ids[..m + 1];
    }
  }

  /** The confirm reply: validation, then exactly the entries that fail, in order, each with its reason. */
  lemma ConfirmReply(s: Store, b: BookingId, ids: seq<SeatId>, now: int) returns (at: seq<nat>)
    ensures var r := ConfirmOutcome(s, b, ids, now);
            && (r == BatchInvalid(BookingIdRequired) <==> b == [])
            && (r == BatchInvalid(SeatIdRequired) <==> b != [] && ids == [])
            && (b != [] && ids != [] ==>
                  r.BatchDone? && ListsUnconfirmed(r.failed, at, s.seats, b, ids, |ids|, now) &&
                  r.changed == |ids| - |at|)
  {
    at := UnconfirmedEntries(s.seats, b, ids, |ids|, now);
    assert ids[..|ids|] == ids;
  }

  // ----- release -----

  /** A release frees the listed seats of its booking, and leaves every other seat alone. */
  lemma ReleasedSeats(s: Store, b: BookingId, ids: seq<SeatId>, k: SeatId)
    requires k in s.seats
    ensures var t := ReleaseStore(s, b, ids);
            && t.seats.Keys == s.seats.Keys
            && t.seats[k] == if b != [] && k in ids && !s.seats[k].Available? && s.seats[k].owner == b
                             then Available(s.seats[k].seatType)
                             else s.seats[k]
  {
  }

  predicate ReleaseFailureFits(seats: Seats, b: BookingId, f: FailedSeat, again: bool) {
    && (f.reason == NotFound <==> f.id !in seats)
    && (f.reason == WrongBooking(None) <==>
          f.id in seats && (seats[f.id].Available? || (again && seats[f.id].owner == b)))
    && (f.id in seats && !seats[f.id].Available? && seats[f.id].owner != b ==>
          f.reason == WrongBooking(Some(seats[f.id].owner)))
  }

  predicate Unreleased(seats: Seats, b: BookingId, ids: seq<SeatId>, i: nat)
    requires i < |ids|
  {
    ids[i] !in seats || seats[ids[i]].Available? || seats[ids[i]].owner != b || ids[i] in ids[..i]
  }

  ghost predicate ListsUnreleased(
    failed: seq<FailedSeat>, at: seq<nat>, seats: Seats, b: BookingId, ids: seq<SeatId>, n: nat)
    requires n <= |ids|
  {
    && Positions(at, n) && |failed| == |at|
    && (forall i :: 0 <= i < n ==> (i in at <==> Unreleased(seats, b, ids, i)))
    && forall j :: 0 <= j < |at| ==>
         failed[j].id == ids[at[j]] && ReleaseFailureFits(seats, b, failed[j], ids[at[j]] in ids[..at[j]])
  }

  lemma LastUnreleased(seats: Seats, b: BookingId, ids: seq<SeatId>, n: nat) returns (last: FailedSeat)
    requires n < |ids|
    ensures ReleaseFailures(seats, b, ids[..n + 1]) ==
            ReleaseFailures(seats, b, ids[..n]) + if Unreleased(seats, b, ids, n) then [last] else []
    ensures Unreleased(seats, b, ids, n) ==>
              last.id == ids[n] && ReleaseFailureFits(seats, b, last, ids[n] in ids[..n])
  {
    assert ids[..n + 1][..n] == ids[..n];
    var verdict := ReleaseVerdict(ReleaseAll(seats, b, ids[..n]), b, ids[n]);
    last := FailedSeat(ids[n], if verdict.Some? then verdict.value else NotFound);
  }

  lemma ListsUnreleasedSnoc(
    failed: seq<FailedSeat>, at: seq<nat>, last: FailedSeat, seats: Seats, b: BookingId, ids: seq<SeatId>, n: nat)
    requires n < |ids| && ListsUnreleased(failed, at, seats, b, ids, n)
    ensures !Unreleased(seats, b, ids, n) ==> ListsUnreleased(failed, at, seats, b, ids, n + 1)
    ensures
      && Unreleased(seats, b, ids, n)
      && last.id == ids[n] && ReleaseFailureFits(seats, b, last, ids[n] in ids[..n]) ==>
        ListsUnreleased(failed + [last], at + [n], seats, b, ids, n + 1)
  {
    PositionsSnoc(at, n);
  }

  lemma {:induction false} UnreleasedEntries(seats: Seats, b: BookingId, ids: seq<SeatId>, n: nat)
    returns (at: seq<nat>)
    requires n <= |ids|
    ensures ListsUnreleased(ReleaseFailures(seats, b, ids[..n]), at, seats, b, ids, n)
  {
    at := [];
    if n > 0 {
      var m := n - 1;
      at := UnreleasedEntries(seats, b, ids, m);
      var last := LastUnreleased(seats, b, ids, m);
      ListsUnreleasedSnoc(ReleaseFailures(seats, b, ids[..m]), at, last, seats, b, ids, m);
      if Unreleased(seats, b, ids, m) {
        at := at + [m];
      }
      assert ids[..n] == ids[..m + 1];
    }
  }

  /** The release reply: validation, then exactly the entries that fail, in order, each with its reason. */
  lemma ReleaseReply(s: Store, b: BookingId, ids: seq<SeatId>) returns (at: seq<nat>)
    ensures var r := ReleaseOutcome(s, b, ids);
            && (r == BatchInvalid(BookingIdRequired) <==> b == [])
            && (r == BatchInvalid(SeatIdRequired) <==> b != [] && ids == [])
            && (b != [] && ids != [] ==>
                  r.BatchDone? && ListsUnreleased(r.failed, at, s.seats, b, ids, |ids|) && r.changed == |ids| - |at|)
  {
    at := UnreleasedEntries(s.seats, b, ids, |ids|);
    assert ids[..|ids|] == ids;
  }

  // ----- cleanup and read -----

  predicate RunOut(seats: Seats, k: SeatId, now: int) {
    k in seats && seats[k].Held? && seats[k].until < now
  }

  /** Cleaning frees the expired holds it looks at, and leaves every other seat alone. */
  lemma CleanedSeats(s: Store, ids: set<SeatId>, now: int, k: SeatId)
    requires k in s.seats
    ensures var t := CleanStore(s, ids, now);
            && t.seats.Keys == s.seats.Keys
            && t.seats[k] == if k in ids && RunOut(s.seats, k, now) then Available(s.seats[k].seatType) else s.seats[k]
  {
  }

  /** The cleanup reply names each expired hold once, with the booking that had it and the time it ran out. */
  lemma CleanupReport(records: seq<ExpiredSeat>, seats: Seats, now: int, k: SeatId)
    requires Reports(records, seats, seats.Keys, now)
    ensures |records| == |set x | x in seats && RunOut(seats, x, now)|
    ensures RunOut(seats, k, now) <==> exists r :: r in records && r.id == k
    ensures forall r :: r in records && r.id == k ==> r == ExpiredSeat(k, seats[k].owner, seats[k].until)
  {
    assert ExpiredAmong(seats, seats.Keys, now) == set x | x in seats && RunOut(seats, x, now);
    assert RunOut(seats, k, now) ==> ExpiredRecord(seats, k) in records;
  }

  /** What a read shows of a seat: as it is, but free once it has run out, and with the seconds a hold has left. */
  lemma ReadShows(s: Store, ids: set<SeatId>, now: int, k: SeatId)
    ensures var r := ReadOutcome(s, ids, now);
            && (k in r.seats <==> k in s.seats && k in ids)
            && (k in r.seats && RunOut(s.seats, k, now) ==>
                  r.seats[k] == SeatView(Available(s.seats[k].seatType), None))
            && (k in r.seats && !RunOut(s.seats, k, now) ==> r.seats[k].seat == s.seats[k])
            && (k in r.seats && s.seats[k].Held? && s.seats[k].until >= now ==>
                  r.seats[k].remaining == Some(s.seats[k].until - now))
            && (k in r.seats && !s.seats[k].Held? ==> r.seats[k].remaining == None)
            && r.expiredCleaned == |set x | x in ids && RunOut(s.seats, x, now)|
            && r.availableCount == s.available + r.expiredCleaned && r.totalSeats == |s.seats.Keys|
  {
    assert ExpiredAmong(s.seats, ids, now) == set x | x in ids && RunOut(s.seats, x, now);
    assert CleanStore(s, ids, now).seats.Keys == s.seats.Keys;
    assert |CleanStore(s, ids, now).seats| == |CleanStore(s, ids, now).seats.Keys|;
  }

  // ----- extend -----

  /** After `j` extensions the hold has not run out. */
  predicate Lasts(until: int, extra: int, now: int, j: int) {
    until + j * extra > now
  }

  /** Each mention adds `extra`, until one finds the hold run out; from then on none does. */
  lemma {:induction false} ExtendedTimes(until: int, extra: int, now: int, n: nat) returns (m: nat)
    ensures m <= n && ExtendTimes(until, extra, now, n) == until + m * extra
    ensures (forall j :: 0 <= j < m ==> Lasts(until, extra, now, j)) && (m < n ==> !Lasts(until, extra, now, m))
  {
    m := 0;
    if n > 0 {
      m := ExtendedTimes(until, extra, now, n - 1);
      if m == n - 1 && Lasts(until, extra, now, m) {
        m := n;
        assert until + n * extra == until + (n - 1) * extra + extra;
      }
    }
  }

  lemma {:induction false} MentionsCount(ids: seq<SeatId>, k: SeatId)
    ensures Mentions(ids, k) == multiset(ids)[k]
  {
    if ids != [] {
      var n := |ids| - 1;
      MentionsCount(ids[..n], k);
      assert ids == ids[..n] + [ids[n]];
    }
  }

  /** An extension changes only the end of its booking's holds, once for every mention while they last. */
  lemma ExtendedSeats(s: Store, b: BookingId, ids: seq<SeatId>, extra: int, now: int, k: SeatId) returns (m: nat)
    requires k in s.seats
    ensures var t := ExtendStore(s, b, ids, extra, now);
            && t.seats.Keys == s.seats.Keys && t.available == s.available
            && (if s.seats[k].Held? && s.seats[k].owner == b then
                  var Held(seatType, _, until) := s.seats[k];
                  && t.seats[k] == Held(seatType, b, until + m * extra)
                  && m <= multiset(ids)[k]
                  && (forall j :: 0 <= j < m ==> Lasts(until, extra, now, j))
                  && (m < multiset(ids)[k] ==> !Lasts(until, extra, now, m))
                else
                  t.seats[k] == s.seats[k])
  {
    m := 0;
    MentionsCount(ids, k);
    if s.seats[k].Held? {
      m := ExtendedTimes(s.seats[k].until, extra, now, Mentions(ids, k));
    }
  }

  /** The entry finds a hold of `b` that has outlasted all earlier mentions. */
  ghost predicate ExtendsAt(seats: Seats, b: BookingId, ids: seq<SeatId>, i: nat, extra: int, now: int)
    requires i < |ids|
  {
    && ids[i] in seats && seats[ids[i]].Held? && seats[ids[i]].owner == b
    && forall j :: 0 <= j <= multiset(ids[..i])[ids[i]] ==> Lasts(seats[ids[i]].until, extra, now, j)
  }

  lemma ExtendsAtIff(seats: Seats, b: BookingId, ids: seq<SeatId>, i: nat, extra: int, now: int)
    requires i < |ids|
    ensures Extendable(ExtendAll(seats, b, ids[..i], extra, now), b, ids[i], now) <==>
            ExtendsAt(seats, b, ids, i, extra, now)
  {
    MentionsCount(ids[..i], ids[i]);
    if ids[i] in seats && seats[ids[i]].Held? && seats[ids[i]].owner == b {
      var until, n := seats[ids[i]].until, multiset(ids[..i])[ids[i]];
      var m := ExtendedTimes(until, extra, now, n);
      assert m == n ==> (Lasts(until, extra, now, n) <==> ExtendTimes(until, extra, now, n) > now);
    }
  }

  /** The reply of an extension counts exactly the entries that extended a hold. */
  lemma {:induction false} ExtendedEntries(
    seats: Seats, b: BookingId, ids: seq<SeatId>, n: nat, extra: int, now: int) returns (at: seq<nat>)
    requires n <= |ids|
    ensures Positions(at, n) && ExtendCount(seats, b, ids[..n], extra, now) == |at|
    ensures forall i :: 0 <= i < n ==> (i in at <==> ExtendsAt(seats, b, ids, i, extra, now))
  {
    at := [];
    if n > 0 {
      at := ExtendedEntries(seats, b, ids, n - 1, extra, now);
      ExtendsAtIff(seats, b, ids, n - 1, extra, now);
      assert ids[..n][..n - 1] == ids[..n - 1];
      if ExtendsAt(seats, b, ids, n - 1, extra, now) {
        PositionsSnoc(at, n - 1);
        at := at + [n - 1];
      }
    }
  }

  // ----- initialisation -----

  /** Seats that exist are left alone unless overwriting is on; otherwise the list replaces everything. */
  lemma InitialisedSeats(s: Store, list: seq<Request>, overwrite: bool)
    ensures var t := InitializeStore(s, list, overwrite);
            && (!overwrite && s.seats.Keys != {} ==> t == s)
            && (overwrite || s.seats.Keys == {} ==>
                  && t.available == |list| && t.seats.Keys == Elems(Ids(list))
                  && forall k, i: nat :: LastNaming(list, k, i) ==>
                       k in t.seats && t.seats[k] == Available(list[i].seatType))
  {
    assert s.seats.Keys == {} <==> s.seats == map[];
    assert InitStore(list).seats.Keys == Elems(Ids(list));
    forall k, i: nat | LastNaming(list, k, i)
      ensures k in Ids(list) && TypeFor(list, k) == list[i].seatType
    {
      assert Ids(list)[i] == k;
      TypeForLast(list, k, i);
    }
  }

  // ----- the raw arguments -----

  /** The script's validation, in its order; an invalid call changes nothing. */
  lemma ValidatedArguments(s: Store, b: BookingId, expire: int, count: int, args: seq<Str>, now: int)
    ensures var r := ArgumentsOutcome(s, b, expire, count, args, now);
            && (r == ReserveInvalid(BookingIdRequired) <==> b == [])
            && (r == ReserveInvalid(HoldExpireNotPositive) <==> b != [] && expire <= 0)
            && (r == ReserveInvalid(SeatCountNotPositive) <==> b != [] && expire > 0 && count <= 0)
            && (r.ReserveInvalid? ==> ArgumentsStore(s, b, expire, count, args, now) == s)
            && (r.ReserveInvalid? && b != [] && expire > 0 && count > 0 ==>
                  || r.error == MissingSeat(|args| + 1)
                  || exists i :: 0 <= i < |args| && r.error == BadSeatFormat(args[i]))
  {
    if b != [] && expire > 0 && count > 0 {
      ParsedOrFirstError(args, count);
      if ParseArguments(args, count).Ok? {
        assert |ParseArguments(args, count).value| == count;
      }
    }
  }
}
