/**
 Expiry is decided lazily, by different scripts with different comparisons. These lemmas relate the
 lazy rule of the reserve scripts to eager cleaning, the status read to the cleanup script, and the
 single reserve to the batch one.
 */
module LazyExpiry {
  import opened Basics
  import opened SeatModel
  import opened ScriptReplies
  import opened SeatCounter

  // ----- cleanup first or reserve first -----

  function ExpiredEntries(seats: Seats, reqs: seq<Request>, now: int): nat {
    if reqs == [] then 0
    else
      var n := |reqs| - 1;
      ExpiredEntries(seats, reqs[..n], now) +
      if reqs[n].id in seats && Expired(seats[reqs[n].id], now) then 1 else 0
  }

  /** Entries that name an expired hold which an earlier entry already named. */
  function RepeatedExpired(seats: Seats, reqs: seq<Request>, now: int): nat {
    if reqs == [] then 0
    else
      var n := |reqs| - 1;
      var id := reqs[n].id;
      RepeatedExpired(seats, reqs[..n], now) +
      if id in seats && Expired(seats[id], now) && id in Ids(reqs[..n]) then 1 else 0
  }

  function ExpiredNamed(seats: Seats, reqs: seq<Request>, now: int): set<SeatId> {
    ExpiredAmong(seats, Elems(Ids(reqs)), now)
  }

  lemma {:induction false} ExpiredAreSeatsPlusRepeats(seats: Seats, reqs: seq<Request>, now: int)
    ensures ExpiredEntries(seats, reqs, now) == |ExpiredNamed(seats, reqs, now)| + RepeatedExpired(seats, reqs, now)
  {
    if reqs != [] {
      var n := |reqs| - 1;
      var p, id := reqs[..n], reqs[n].id;
      ExpiredAreSeatsPlusRepeats(seats, p, now);
      assert Ids(reqs) == Ids(p) + [id];
      if id in seats && Expired(seats[id], now) {
        assert ExpiredNamed(seats, reqs, now) == ExpiredNamed(seats, p, now) + {id};
      } else {
        assert ExpiredNamed(seats, reqs, now) == ExpiredNamed(seats, p, now);
      }
    }
  }

  lemma {:induction false} CleaningAddsEntries(seats: Seats, reqs: seq<Request>, now: int)
    ensures AvailableEntries(CleanAmong(seats, seats.Keys, now), reqs) ==
            AvailableEntries(seats, reqs) + ExpiredEntries(seats, reqs, now)
  {
    if reqs != [] {
      CleaningAddsEntries(seats, reqs[..|reqs| - 1], now);
    }
  }

  /** Cleaning first never changes a reserve reply: the lazy rule already sees through expired holds. */
  lemma {:induction false} CleaningKeepsRefusals(seats: Seats, reqs: seq<Request>, now: int)
    ensures Refusals(CleanAmong(seats, seats.Keys, now), reqs, now) == Refusals(seats, reqs, now)
  {
    if reqs != [] {
      CleaningKeepsRefusals(seats, reqs[..|reqs| - 1], now);
    }
  }

  /**
   Cleanup then reserve against reserve then cleanup, at one time: the replies always agree, and the
   hash and the counter agree if and only if the request is refused, or it asks for a hold that does
   not end before `now` and names no expired seat twice.
   */
  lemma LazyEqualsEager(s: Store, b: BookingId, expire: int, reqs: seq<Request>, now: int)
    ensures ReserveOutcome(CleanupStore(s, now), b, expire, reqs, now) == ReserveOutcome(s, b, expire, reqs, now)
    ensures ReserveStore(CleanupStore(s, now), b, expire, reqs, now) ==
            CleanupStore(ReserveStore(s, b, expire, reqs, now), now)
       <==> || !ReserveOutcome(s, b, expire, reqs, now).Reserved?
            || (expire >= now && RepeatedExpired(s.seats, reqs, now) == 0)
  {
    CleaningKeepsRefusals(s.seats, reqs, now);
    if ReserveOutcome(s, b, expire, reqs, now).Reserved? {
      ReserveGranted(s, b, expire, reqs, now);
      if expire >= now {
        LazyCounter(s, b, expire, reqs, now);
        LazySeats(s.seats, b, expire, reqs, now);
      } else {
        var k := Ids(reqs)[0];
        assert ReserveStore(CleanupStore(s, now), b, expire, reqs, now).seats[k].Held?;
        assert CleanupStore(ReserveStore(s, b, expire, reqs, now), now).seats[k].Available?;
      }
    }
  }

  lemma LazySeats(seats: Seats, b: BookingId, expire: int, reqs: seq<Request>, now: int)
    requires expire >= now
    ensures HoldAll(CleanAmong(seats, seats.Keys, now), reqs, b, expire) ==
            CleanAmong(HoldAll(seats, reqs, b, expire), HoldAll(seats, reqs, b, expire).Keys, now)
  {
  }

  lemma LazyCounter(s: Store, b: BookingId, expire: int, reqs: seq<Request>, now: int)
    requires ReserveOutcome(s, b, expire, reqs, now).Reserved? && expire >= now
    requires ReserveOutcome(CleanupStore(s, now), b, expire, reqs, now).Reserved?
    ensures ReserveStore(CleanupStore(s, now), b, expire, reqs, now).available ==
            CleanupStore(ReserveStore(s, b, expire, reqs, now), now).available - RepeatedExpired(s.seats, reqs, now)
  {
    var held := HoldAll(s.seats, reqs, b, expire);
    CleaningAddsEntries(s.seats, reqs, now);
    ExpiredAreSeatsPlusRepeats(s.seats, reqs, now);
    var all, named := ExpiredAmong(s.seats, s.seats.Keys, now), ExpiredNamed(s.seats, reqs, now);
    assert ExpiredAmong(held, held.Keys, now) == all - named;
    SplitCard(all, named);
  }

  lemma {:induction false} DistinctNamesNoExpiredTwice(seats: Seats, reqs: seq<Request>, now: int)
    requires Distinct(Ids(reqs))
    ensures RepeatedExpired(seats, reqs, now) == 0
  {
    if reqs != [] {
      var n := |reqs| - 1;
      assert forall i :: 0 <= i < n ==> Ids(reqs[..n])[i] == Ids(reqs)[i];
      DistinctNamesNoExpiredTwice(seats, reqs[..n], now);
      assert Ids(reqs)[n] == reqs[n].id;
    }
  }

  /** For duplicate-free requests with an expiry not in the past the two orders always agree, granted or not. */
  lemma LazyEqualsEagerDistinct(s: Store, b: BookingId, expire: int, reqs: seq<Request>, now: int)
    requires Distinct(Ids(reqs)) && expire >= now
    ensures ReserveStore(CleanupStore(s, now), b, expire, reqs, now) ==
            CleanupStore(ReserveStore(s, b, expire, reqs, now), now)
  {
    DistinctNamesNoExpiredTwice(s.seats, reqs, now);
    LazyEqualsEager(s, b, expire, reqs, now);
  }

  // ----- status reads -----

  /** The seats a reply shows as available. */
  function ShownAvailable(r: StatusReply): set<SeatId> {
    set k | k in r.seats && r.seats[k].seat.Available?
  }

  /**
   A full status read leaves the store as cleanup does, shows every seat and no expired hold, and from a
   state whose counter is exact it reports as many available seats as it shows.
   */
  lemma FullRead(s: Store, now: int)
    ensures var r, t := ReadOutcome(s, s.seats.Keys, now), CleanupStore(s, now);
            && r.seats.Keys == s.seats.Keys && r.totalSeats == |s.seats|
            && (forall k :: k in r.seats ==> r.seats[k].seat == t.seats[k] && !Expired(r.seats[k].seat, now))
            && (Surplus(s) == 0 ==> r.availableCount == |ShownAvailable(r)|)
            && r.availableCount == s.available + r.expiredCleaned
  {
    var r, t := ReadOutcome(s, s.seats.Keys, now), CleanupStore(s, now);
    CleanSurplus(s, s.seats.Keys, now);
    assert ShownAvailable(r) == AvailableSet(t.seats);
    assert t.seats.Keys == s.seats.Keys;
    assert |t.seats| == |t.seats.Keys| && |s.seats| == |s.seats.Keys|;
  }

  /** Cleaning is idempotent at one time, whichever of the two scripts and whichever seats go first. */
  lemma CleanTwice(s: Store, some: set<SeatId>, more: set<SeatId>, now: int)
    requires more <= some
    ensures CleanStore(CleanStore(s, some, now), more, now) == CleanStore(s, some, now)
    ensures ReadOutcome(CleanStore(s, some, now), more, now).expiredCleaned == 0
  {
    assert ExpiredAmong(CleanStore(s, some, now).seats, more, now) == {};
  }

  /** Reading in parts and then cleaning the rest is the same as cleaning everything at once. */
  lemma CleanInParts(s: Store, some: set<SeatId>, now: int)
    ensures CleanupStore(CleanStore(s, some, now), now) == CleanupStore(s, now)
  {
    var t := CleanAmong(s.seats, some, now);
    PartsCount(s.seats, some, now);
    assert CleanAmong(t, t.Keys, now) == CleanAmong(s.seats, s.seats.Keys, now);
  }

  lemma PartsCount(seats: Seats, some: set<SeatId>, now: int)
    ensures var t := CleanAmong(seats, some, now);
            |ExpiredAmong(t, t.Keys, now)| + |ExpiredAmong(seats, some, now)| == |ExpiredAmong(seats, seats.Keys, now)|
  {
    var t := CleanAmong(seats, some, now);
    var all, first := ExpiredAmong(seats, seats.Keys, now), ExpiredAmong(seats, some, now);
    forall k | k in seats
      ensures k in ExpiredAmong(t, t.Keys, now) <==> k in all && k !in first
    {
    }
    assert ExpiredAmong(t, t.Keys, now) == all - first;
    SplitCard(all, first);
  }

  // ----- single and batch reserve -----

  predicate SameVerdict(single: SingleReply, batch: ReserveReply, id: SeatId) {
    match single
    case SingleReserved => batch.Reserved? && batch.reserved == 1
    case SingleNotFound => batch == SeatsUnavailable([UnavailableSeat(id, SeatNotFound)])
    case SingleBooked => batch == SeatsUnavailable([UnavailableSeat(id, SeatBooked)])
    case SingleHeld => batch.SeatsUnavailable? && |batch.unavailable| == 1 &&
                       batch.unavailable[0].id == id && batch.unavailable[0].reason.SeatHeld?
  }

  /**
   On a one-seat list the single script gives the batch script's verdict, hash and counter; the
   arguments that only the batch script validates are a booking id and a positive expiry.
   */
  lemma SingleRefinesBatch(s: Store, b: BookingId, expire: int, r: Request, now: int)
    ensures SameVerdict(ReserveOneOutcome(s, r, now), ReserveOutcome(s, b, expire, [r], now), r.id) <==>
            b != [] && expire > 0
    ensures b != [] && expire > 0 ==> ReserveOneStore(s, b, expire, r, now) == ReserveStore(s, b, expire, [r], now)
  {
    assert [r][..0] == [];
    assert Ids([r]) == [r.id];
    assert Refusals(s.seats, [r][..0], now) == [];
    assert AvailableEntries(s.seats, [r][..0]) == 0;
    if b != [] && expire > 0 && ReserveOneOutcome(s, r, now).SingleReserved? {
      assert HoldAll(s.seats, [r], b, expire) == s.seats[r.id := Held(r.seatType, b, expire)];
    }
  }
}
