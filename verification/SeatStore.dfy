/**
 The seat store of one showtime: the Redis hash and counter, and the scripts that
 change them, each with the loops of its source. Every contract equates the new
 state and the reply with a function of SeatModel, for all inputs.
 */
module SeatScripts {
  import opened Basics
  import opened SeatModel
  import opened SeatArguments

  datatype ToHold = ToHold(request: Request, wasAvailable: bool)

  class SeatStore {
    var seats: Seats
    var available: int

    function Snapshot(): Store
      reads this
    {
      Store(seats, available)
    }

    constructor ()
      ensures Snapshot() == Store(map[], 0)
    {
      seats, available := map[], 0;
    }

    /** The keys of a showtime as Redis currently has them. */
    constructor At(s: Store)
      ensures Snapshot() == s
    {
      seats, available := s.seats, s.available;
    }

    method InitializeShowtime(list: seq<Request>, overwrite: bool)
      modifies this
      ensures Snapshot() == InitializeStore(old(Snapshot()), list, overwrite)
    {
      if !overwrite && seats != map[] {
        return;
      }
      if overwrite {
        seats, available := map[], 0;
      }
      for i := 0 to |list|
        invariant seats == InitStore(list[..i]).seats
      {
        var before := list[..i];
        assert list[..i + 1] == before + [list[i]];
        seats := seats[list[i].id := Available(list[i].seatType)];
        InitExtends(before, list[i]);
      }
      assert list[..|list|] == list;
      available := |list|;
    }

    /** HGETALL: every field and its value, each once, in an order the server chooses. */
    method HGetAll() returns (ids: seq<SeatId>, values: seq<Seat>)
      ensures Distinct(ids) && Elems(ids) == seats.Keys
      ensures |values| == |ids| && forall i :: 0 <= i < |ids| ==> ids[i] in seats && values[i] == seats[ids[i]]
    {
      var todo := seats.Keys;
      ids, values := [], [];
      while todo != {}
        invariant todo <= seats.Keys
        invariant Distinct(ids) && Elems(ids) == seats.Keys - todo
        invariant |values| == |ids| && forall i :: 0 <= i < |ids| ==> ids[i] in seats && values[i] == seats[ids[i]]
        decreases todo
      {
        var id :| id in todo;
        assert forall i :: 0 <= i < |ids| ==> ids[i] in Elems(ids);
        ghost var prev := ids;
        ids, values := ids + [id], values + [seats[id]];
        assert Elems(ids) == Elems(prev) + {id};
        todo := todo - {id};
      }
    }

    method ParseArgs(count: int, args: seq<Str>) returns (r: Result<seq<Request>, InputError>)
      requires count > 0
      ensures r == ParseArguments(args, count)
    {
      var parsed: seq<Request> := [];
      var i := 1;
      while i <= count
        invariant 1 <= i <= count + 1
        invariant ParseArguments(args, i - 1) == Ok(parsed)
      {
        if i > |args| {
          ErrorSticks(args, i, count);
          return Err(MissingSeat(i));
        }
        var one := ParseRequest(args[i - 1]);
        if one == None {
          ErrorSticks(args, i, count);
          return Err(BadSeatFormat(args[i - 1]));
        }
        parsed := parsed + [one.value];
        i := i + 1;
      }
      return Ok(parsed);
    }

    /** batch-seat-reservation.lua */
    method BatchReserve(b: BookingId, expire: int, count: int, args: seq<Str>, now: int) returns (reply: ReserveReply)
      modifies this
      ensures reply == ArgumentsOutcome(old(Snapshot()), b, expire, count, args, now)
      ensures Snapshot() == ArgumentsStore(old(Snapshot()), b, expire, count, args, now)
    {
      if b == [] {
        return ReserveInvalid(BookingIdRequired);
      }
      if expire <= 0 {
        return ReserveInvalid(HoldExpireNotPositive);
      }
      if count <= 0 {
        return ReserveInvalid(SeatCountNotPositive);
      }
      var parsed := ParseArgs(count, args);
      if parsed.Err? {
        return ReserveInvalid(parsed.error);
      }
      ParsedPrefix(args, count);
      reply := ReserveParsed(b, expire, parsed.value, now);
    }

    /** The check phase and the write phase of the batch reserve script. */
    method ReserveParsed(b: BookingId, expire: int, reqs: seq<Request>, now: int) returns (reply: ReserveReply)
      requires b != [] && expire > 0 && reqs != []
      modifies this
      ensures reply == ReserveOutcome(old(Snapshot()), b, expire, reqs, now)
      ensures Snapshot() == ReserveStore(old(Snapshot()), b, expire, reqs, now)
    {
      var refused, checks := CheckAll(reqs, now);
      if |refused| > 0 {
        return SeatsUnavailable(refused);
      }
      ghost var before := seats;
      var reserved, decrement := 0, 0;
      assert seats == HoldAll(before, reqs[..0], b, expire);
      for i := 0 to |checks|
        invariant reserved == i
        invariant decrement == AvailableEntries(before, reqs[..i])
        invariant seats == HoldAll(before, reqs[..i], b, expire)
        invariant available == old(available)
      {
        var r := checks[i].request;
        assert reqs[..i + 1] == reqs[..i] + [r];
        HoldExtends(before, reqs[..i], r, b, expire);
        seats := seats[r.id := Held(r.seatType, b, expire)];
        reserved := reserved + 1;
        if checks[i].wasAvailable {
          decrement := decrement + 1;
        }
      }
      assert reqs[..|checks|] == reqs;
      if decrement > 0 {
        available := available - decrement;
      }
      reply := Reserved(reserved, b, expire);
    }

    method CheckAll(reqs: seq<Request>, now: int) returns (refused: seq<UnavailableSeat>, checks: seq<ToHold>)
      ensures refused == Refusals(seats, reqs, now)
      ensures refused == [] ==>
                && |checks| == |reqs|
                && forall i :: 0 <= i < |reqs| ==>
                     && reqs[i].id in seats
                     && checks[i] == ToHold(reqs[i], seats[reqs[i].id].Available?)
    {
      refused, checks := [], [];
      for i := 0 to |reqs|
        invariant refused == Refusals(seats, reqs[..i], now)
        invariant refused == [] ==>
                    && |checks| == i
                    && forall j :: 0 <= j < i ==>
                         && reqs[j].id in seats
                         && checks[j] == ToHold(reqs[j], seats[reqs[j].id].Available?)
      {
        var r := reqs[i];
        assert reqs[..i + 1][..i] == reqs[..i];
        if r.id !in seats {
          refused := refused + [UnavailableSeat(r.id, SeatNotFound)];
        } else {
          match seats[r.id]
          case Booked(_, _) =>
            refused := refused + [UnavailableSeat(r.id, SeatBooked)];
          case Held(_, owner, until) =>
            if until > now {
              refused := refused + [UnavailableSeat(r.id, SeatHeld(owner))];
            } else {
              checks := checks + [ToHold(r, false)];
            }
          case Available(_) =>
            checks := checks + [ToHold(r, true)];
        }
      }
      assert reqs[..|reqs|] == reqs;
    }

    /** seat-reservation.lua */
    method ReserveOne(b: BookingId, expire: int, r: Request, now: int) returns (reply: SingleReply)
      modifies this
      ensures reply == ReserveOneOutcome(old(Snapshot()), r, now)
      ensures Snapshot() == ReserveOneStore(old(Snapshot()), b, expire, r, now)
    {
      if r.id !in seats {
        return SingleNotFound;
      }
      var current := seats[r.id];
      if current.Booked? {
        return SingleBooked;
      }
      if current.Held? && current.until > now {
        return SingleHeld;
      }
      seats := seats[r.id := Held(r.seatType, b, expire)];
      if current.Available? {
        available := available - 1;
      }
      reply := SingleReserved;
    }

    /** confirm-seats.lua */
    method Confirm(b: BookingId, ids: seq<SeatId>, now: int) returns (reply: BatchReply)
      modifies this
      ensures reply == ConfirmOutcome(old(Snapshot()), b, ids, now)
      ensures Snapshot() == ConfirmStore(old(Snapshot()), b, ids, now)
    {
      if b == [] {
        return BatchInvalid(BookingIdRequired);
      }
      ghost var before := seats;
      assert seats == ConfirmAll(before, b, [], now);
      if ids == [] {
        return BatchInvalid(SeatIdRequired);
      }
      var confirmed := 0;
      var failed: seq<FailedSeat> := [];
      for i := 0 to |ids|
        invariant seats == ConfirmAll(before, b, ids[..i], now)
        invariant failed == ConfirmFailures(before, b, ids[..i], now)
        invariant confirmed == i - |failed|
        invariant available == old(available)
      {
        Snoc(ids, i);
        var failure := ConfirmOne(b, ids[i], now, before, ids[..i]);
        if failure.Some? {
          failed := failed + [FailedSeat(ids[i], failure.value)];
        } else {
          confirmed := confirmed + 1;
        }
      }
      Snoc(ids, |ids|);
      reply := BatchDone(confirmed, failed);
    }

    /** The body of the confirm loop: one HGET, at most one HSET. */
    method ConfirmOne(b: BookingId, id: SeatId, now: int, ghost before: Seats, ghost done: seq<SeatId>)
      returns (failure: Option<FailReason>)
      requires seats == ConfirmAll(before, b, done, now)
      modifies this
      ensures failure == ConfirmVerdict(old(seats), b, id, now)
      ensures seats == ConfirmAll(before, b, done + [id], now) && available == old(available)
    {
      ConfirmExtends(before, b, done, id, now);
      if id !in seats {
        return Some(NotFound);
      }
      var seat := seats[id];
      if !seat.Held? {
        return Some(NotHeld(StatusOf(seat)));
      }
      if seat.owner != b {
        return Some(WrongBooking(Some(seat.owner)));
      }
      if seat.until < now {
        return Some(HoldExpired);
      }
      seats := seats[id := Booked(seat.seatType, seat.owner)];
      return None;
    }

    /** release-seats.lua */
    method Release(b: BookingId, ids: seq<SeatId>) returns (reply: BatchReply)
      modifies this
      ensures reply == ReleaseOutcome(old(Snapshot()), b, ids)
      ensures Snapshot() == ReleaseStore(old(Snapshot()), b, ids)
    {
      if b == [] {
        return BatchInvalid(BookingIdRequired);
      }
      ghost var before := seats;
      assert seats == ReleaseAll(before, b, []);
      if ids == [] {
        return BatchInvalid(SeatIdRequired);
      }
      var released := 0;
      var failed: seq<FailedSeat> := [];
      for i := 0 to |ids|
        invariant seats == ReleaseAll(before, b, ids[..i])
        invariant failed == ReleaseFailures(before, b, ids[..i])
        invariant released == i - |failed|
        invariant available == old(available)
      {
        Snoc(ids, i);
        var failure := ReleaseOne(b, ids[i], before, ids[..i]);
        if failure.Some? {
          failed := failed + [FailedSeat(ids[i], failure.value)];
        } else {
          released := released + 1;
        }
      }
      Snoc(ids, |ids|);
      if released > 0 {
        available := available + released;
      }
      reply := BatchDone(released, failed);
    }

    /** The body of the release loop. */
    method ReleaseOne(b: BookingId, id: SeatId, ghost before: Seats, ghost done: seq<SeatId>)
      returns (failure: Option<FailReason>)
      requires seats == ReleaseAll(before, b, done)
      modifies this
      ensures failure == ReleaseVerdict(old(seats), b, id)
      ensures seats == ReleaseAll(before, b, done + [id]) && available == old(available)
    {
      ReleaseExtends(before, b, done, id);
      if id !in seats {
        return Some(NotFound);
      }
      var seat := seats[id];
      if seat.Available? || seat.owner != b {
        return Some(WrongBooking(if seat.Available? then None else Some(seat.owner)));
      }
      seats := seats[id := Available(seat.seatType)];
      return None;
    }

    /** cleanup-expired-holds.lua: walks a snapshot of the hash while it writes to the hash. */
    method Cleanup(now: int) returns (released: nat, records: seq<ExpiredSeat>)
      modifies this
      ensures Snapshot() == CleanupStore(old(Snapshot()), now)
      ensures released == |records| && Reports(records, old(seats), old(seats.Keys), now)
    {
      var ids, values := HGetAll();
      ghost var before := seats;
      ghost var done: set<SeatId> := {};
      released, records := 0, [];
      assert seats == CleanAmong(before, {}, now);
      for i := 0 to |ids|
        invariant done == Elems(ids[..i])
        invariant seats == CleanAmong(before, done, now)
        invariant released == |records| && Reports(records, before, done, now)
        invariant available == old(available)
      {
        ElemsPrefix(ids, i);
        var freed := FreeExpired(ids[i], values[i], now, before, done);
        if freed {
          ReportsRound(records, before, done, ids[i], now);
          released := released + 1;
          records := records + [ExpiredSeat(ids[i], values[i].owner, values[i].until)];
        }
        done := done + {ids[i]};
      }
      Snoc(ids, |ids|);
      if released > 0 {
        available := available + released;
      }
    }

    /** Puts one expired hold back to available; shared by the cleanup loop and both read loops. */
    method FreeExpired(id: SeatId, seat: Seat, now: int, ghost before: Seats, ghost done: set<SeatId>)
      returns (freed: bool)
      requires id in before && seat == if id in done then CleanSeat(before[id], now) else before[id]
      requires seats == CleanAmong(before, done, now)
      modifies this
      ensures freed == Expired(seat, now) && (freed ==> id !in done && seat == before[id])
      ensures seats == CleanAmong(before, done + {id}, now) && available == old(available)
      ensures |ExpiredAmong(before, done + {id}, now)| == |ExpiredAmong(before, done, now)| + if freed then 1 else 0
      ensures !freed ==> ExpiredAmong(before, done + {id}, now) == ExpiredAmong(before, done, now)
    {
      CleanRound(before, done, id, now);
      freed := seat.Held? && seat.until < now;
      if freed {
        seats := seats[id := Available(seat.seatType)];
      }
    }

    /** get-seats-status.lua with seat arguments: each field is read afresh, so a repeated id is freed once. */
    method ReadSome(ids: seq<SeatId>, now: int) returns (reply: StatusReply)
      requires ids != []
      modifies this
      ensures reply == ReadOutcome(old(Snapshot()), Elems(ids), now)
      ensures Snapshot() == CleanStore(old(Snapshot()), Elems(ids), now)
    {
      ghost var before := seats;
      ghost var done: set<SeatId> := {};
      var views: map<SeatId, SeatView> := map[];
      var cleaned := 0;
      assert seats == CleanAmong(before, {}, now);
      for i := 0 to |ids|
        invariant done == Elems(ids[..i])
        invariant seats == CleanAmong(before, done, now)
        invariant cleaned == |ExpiredAmong(before, done, now)|
        invariant available == old(available) + cleaned
        invariant views == Views(seats, done, now)
      {
        ElemsPrefix(ids, i);
        ViewsRound(before, done, ids[i], now);
        if ids[i] in seats {
          var view, freed := ReadOne(ids[i], seats[ids[i]], now, before, done);
          views := views[ids[i] := view];
          if freed {
            cleaned := cleaned + 1;
          }
        } else {
          CleanRound(before, done, ids[i], now);
          views := views - {ids[i]};
        }
        done := done + {ids[i]};
      }
      Snoc(ids, |ids|);
      reply := StatusReply(views, available, |seats|, cleaned);
    }

    /** The body of the read loops: frees an expired hold with one INCR, and reports the seat. */
    method ReadOne(id: SeatId, seat: Seat, now: int, ghost before: Seats, ghost done: set<SeatId>)
      returns (view: SeatView, freed: bool)
      requires id in before && seat == if id in done then CleanSeat(before[id], now) else before[id]
      requires seats == CleanAmong(before, done, now)
      modifies this
      ensures view == ViewOf(CleanSeat(seat, now), now)
      ensures seats == CleanAmong(before, done + {id}, now)
      ensures available == old(available) + if freed then 1 else 0
      ensures |ExpiredAmong(before, done + {id}, now)| == |ExpiredAmong(before, done, now)| + if freed then 1 else 0
    {
      freed := FreeExpired(id, seat, now, before, done);
      if freed {
        available := available + 1;
        view := SeatView(Available(seat.seatType), None);
      } else if seat.Held? {
        view := SeatView(seat, Some(seat.until - now));
      } else {
        view := SeatView(seat, None);
      }
    }

    /** get-seats-status.lua without arguments: a walk over HGETALL. */
    method ReadAll(now: int) returns (reply: StatusReply)
      modifies this
      ensures reply == ReadOutcome(old(Snapshot()), old(seats.Keys), now)
      ensures Snapshot() == CleanupStore(old(Snapshot()), now)
    {
      var ids, values := HGetAll();
      ghost var before := seats;
      ghost var done: set<SeatId> := {};
      var views: map<SeatId, SeatView> := map[];
      var cleaned := 0;
      assert seats == CleanAmong(before, {}, now);
      for i := 0 to |ids|
        invariant done == Elems(ids[..i])
        invariant seats == CleanAmong(before, done, now)
        invariant cleaned == |ExpiredAmong(before, done, now)|
        invariant available == old(available) + cleaned
        invariant views == Views(seats, done, now)
      {
        ElemsPrefix(ids, i);
        ViewsRound(before, done, ids[i], now);
        var view, freed := ReadOne(ids[i], values[i], now, before, done);
        views := views[ids[i] := view];
        if freed {
          cleaned := cleaned + 1;
        }
        done := done + {ids[i]};
      }
      Snoc(ids, |ids|);
      reply := StatusReply(views, available, |seats|, cleaned);
    }

    /** The inline script of `extendHold`; a repeated id is extended once for each mention. */
    method ExtendHold(b: BookingId, ids: seq<SeatId>, extra: int, now: int) returns (extended: nat)
      modifies this
      ensures extended == ExtendCount(old(seats), b, ids, extra, now)
      ensures Snapshot() == ExtendStore(old(Snapshot()), b, ids, extra, now)
    {
      ghost var before := seats;
      extended := 0;
      assert seats == ExtendAll(before, b, [], extra, now);
      for i := 0 to |ids|
        invariant seats == ExtendAll(before, b, ids[..i], extra, now)
        invariant extended == ExtendCount(before, b, ids[..i], extra, now)
        invariant available == old(available)
      {
        Snoc(ids, i);
        var did := ExtendOne(b, ids[i], extra, now, before, ids[..i]);
        if did {
          extended := extended + 1;
        }
      }
      Snoc(ids, |ids|);
    }

    method ExtendOne(b: BookingId, id: SeatId, extra: int, now: int, ghost before: Seats, ghost done: seq<SeatId>)
      returns (did: bool)
      requires seats == ExtendAll(before, b, done, extra, now)
      modifies this
      ensures did == Extendable(old(seats), b, id, now)
      ensures seats == ExtendAll(before, b, done + [id], extra, now) && available == old(available)
    {
      ExtendExtends(before, b, done, id, extra, now);
      did := false;
      if id in seats {
        var seat := seats[id];
        if seat.Held? && seat.owner == b {
          if seat.until > now {
            seats := seats[id := seat.(until := seat.until + extra)];
            did := true;
          }
        }
      }
    }

    /** `reserveSeats`: prints the arguments, computes the expiry from the application clock, runs the script. */
    method ReserveSeats(reqs: seq<Request>, b: BookingId, clockMs: int, duration: int, now: int)
      returns (reply: ReserveReply)
      modifies this
      ensures reply == PrintedOutcome(old(Snapshot()), b, clockMs / 1000 + duration, reqs, now)
      ensures Snapshot() == PrintedStore(old(Snapshot()), b, clockMs / 1000 + duration, reqs, now)
    {
      reply := BatchReserve(b, clockMs / 1000 + duration, |reqs|, PrintRequests(reqs), now);
    }
  }

  function PrintedOutcome(s: Store, b: BookingId, expire: int, reqs: seq<Request>, now: int): ReserveReply {
    ArgumentsOutcome(s, b, expire, |reqs|, PrintRequests(reqs), now)
  }

  function PrintedStore(s: Store, b: BookingId, expire: int, reqs: seq<Request>, now: int): Store {
    ArgumentsStore(s, b, expire, |reqs|, PrintRequests(reqs), now)
  }

  predicate AllPlain(reqs: seq<Request>) {
    forall i :: 0 <= i < |reqs| ==> Plain(reqs[i].id) && Plain(reqs[i].seatType)
  }

  /** Between printing and parsing nothing is lost: on plain seats the service reserves the very list it was given. */
  lemma PrintedIsGiven(s: Store, b: BookingId, expire: int, reqs: seq<Request>, now: int)
    requires AllPlain(reqs)
    ensures PrintedOutcome(s, b, expire, reqs, now) == ReserveOutcome(s, b, expire, reqs, now)
    ensures PrintedStore(s, b, expire, reqs, now) == ReserveStore(s, b, expire, reqs, now)
  {
    ParsePrintAll(reqs, |reqs|);
    assert reqs[..|reqs|] == reqs;
  }

  /** The batch reserve script on its raw arguments: validation, then parsing, then ReserveOutcome. */
  function ArgumentsOutcome(
    s: Store, b: BookingId, expire: int, count: int, args: seq<Str>, now: int): ReserveReply
  {
    if b == [] then ReserveInvalid(BookingIdRequired)
    else if expire <= 0 then ReserveInvalid(HoldExpireNotPositive)
    else if count <= 0 then ReserveInvalid(SeatCountNotPositive)
    else match ParseArguments(args, count)
      case Err(e) => ReserveInvalid(e)
      case Ok(reqs) => ReserveOutcome(s, b, expire, reqs, now)
  }

  function ArgumentsStore(s: Store, b: BookingId, expire: int, count: int, args: seq<Str>, now: int): Store {
    if b != [] && expire > 0 && count > 0 && ParseArguments(args, count).Ok?
    then ReserveStore(s, b, expire, ParseArguments(args, count).value, now)
    else s
  }

  // ----- one more round of each loop -----

  lemma Snoc<T>(s: seq<T>, i: nat)
    requires i <= |s|
    ensures i < |s| ==> s[..i + 1] == s[..i] + [s[i]] && s[..i + 1][..i] == s[..i]
    ensures i == |s| ==> s[..i] == s
  {
  }

  lemma ElemsPrefix(ids: seq<SeatId>, i: nat)
    requires i < |ids|
    ensures Elems(ids[..i + 1]) == Elems(ids[..i]) + {ids[i]}
    ensures Distinct(ids) ==> ids[i] !in Elems(ids[..i])
  {
    assert ids[..i + 1] == ids[..i] + [ids[i]];
  }

  lemma ErrorSticks(args: seq<Str>, i: nat, n: nat)
    requires i <= n && ParseArguments(args, i).Err?
    ensures ParseArguments(args, n) == ParseArguments(args, i)
    decreases n
  {
    if i < n {
      ErrorSticks(args, i, n - 1);
    }
  }

  lemma InitExtends(list: seq<Request>, r: Request)
    ensures InitStore(list + [r]).seats == InitStore(list).seats[r.id := Available(r.seatType)]
  {
    IdsAppend(list, r);
  }

  lemma IdsAppend(reqs: seq<Request>, r: Request)
    ensures Ids(reqs + [r]) == Ids(reqs) + [r.id]
    ensures forall k :: k in Ids(reqs + [r]) ==>
              TypeFor(reqs + [r], k) == if k == r.id then r.seatType else TypeFor(reqs, k)
  {
    assert (reqs + [r])[..|reqs|] == reqs;
  }

  lemma HoldExtends(seats: Seats, reqs: seq<Request>, r: Request, b: BookingId, expire: int)
    requires r.id in seats
    ensures HoldAll(seats, reqs + [r], b, expire) ==
            HoldAll(seats, reqs, b, expire)[r.id := Held(r.seatType, b, expire)]
    ensures AvailableEntries(seats, reqs + [r]) ==
            AvailableEntries(seats, reqs) + if seats[r.id].Available? then 1 else 0
  {
    IdsAppend(reqs, r);
    assert (reqs + [r])[..|reqs|] == reqs;
  }

  lemma ConfirmExtends(seats: Seats, b: BookingId, ids: seq<SeatId>, id: SeatId, now: int)
    ensures id !in seats ==> ConfirmAll(seats, b, ids + [id], now) == ConfirmAll(seats, b, ids, now)
    ensures id in seats ==>
              var done := ConfirmAll(seats, b, ids, now);
              ConfirmAll(seats, b, ids + [id], now) == done[id := ConfirmSeat(done[id], b, now)]
  {
  }

  lemma ReleaseExtends(seats: Seats, b: BookingId, ids: seq<SeatId>, id: SeatId)
    ensures id !in seats ==> ReleaseAll(seats, b, ids + [id]) == ReleaseAll(seats, b, ids)
    ensures id in seats ==>
              var done := ReleaseAll(seats, b, ids);
              ReleaseAll(seats, b, ids + [id]) == done[id := ReleaseSeat(done[id], b)]
  {
  }

  /** One more id in a cleaning loop: what happens to the hash and to the tally. */
  lemma CleanRound(seats: Seats, ids: set<SeatId>, id: SeatId, now: int)
    ensures var done, next := CleanAmong(seats, ids, now), CleanAmong(seats, ids + {id}, now);
            if id in seats && Expired(done[id], now) then
              && id !in ids
              && next == done[id := Available(done[id].seatType)]
              && |ExpiredAmong(seats, ids + {id}, now)| == |ExpiredAmong(seats, ids, now)| + 1
            else
              && next == done
              && ExpiredAmong(seats, ids + {id}, now) == ExpiredAmong(seats, ids, now)
  {
    if id in seats && Expired(CleanAmong(seats, ids, now)[id], now) {
      assert ExpiredAmong(seats, ids + {id}, now) == ExpiredAmong(seats, ids, now) + {id};
    } else {
      assert ExpiredAmong(seats, ids + {id}, now) == ExpiredAmong(seats, ids, now);
    }
  }

  lemma ReportsRound(
    records: seq<ExpiredSeat>, seats: Seats, ids: set<SeatId>, id: SeatId, now: int)
    requires Reports(records, seats, ids, now)
    requires id in seats && id !in ids && Expired(seats[id], now)
    ensures Reports(records + [ExpiredRecord(seats, id)], seats, ids + {id}, now)
  {
    var more := records + [ExpiredRecord(seats, id)];
    assert ExpiredAmong(seats, ids + {id}, now) == ExpiredAmong(seats, ids, now) + {id};
    assert more[|records|] == ExpiredRecord(seats, id);
    forall k | k in ExpiredAmong(seats, ids + {id}, now)
      ensures ExpiredRecord(seats, k) in more
    {
      if k != id {
        assert ExpiredRecord(seats, k) in records;
      }
    }
  }

  lemma ViewsRound(seats: Seats, ids: set<SeatId>, id: SeatId, now: int)
    ensures var done := CleanAmong(seats, ids, now);
            Views(CleanAmong(seats, ids + {id}, now), ids + {id}, now) ==
            if id in seats
            then Views(done, ids, now)[id := ViewOf(CleanSeat(seats[id], now), now)]
            else Views(done, ids, now) - {id}
  {
  }

  lemma ExtendExtends(seats: Seats, b: BookingId, ids: seq<SeatId>, id: SeatId, extra: int, now: int)
    ensures id !in seats ==> ExtendAll(seats, b, ids + [id], extra, now) == ExtendAll(seats, b, ids, extra, now)
    ensures id in seats ==>
              var done := ExtendAll(seats, b, ids, extra, now);
              ExtendAll(seats, b, ids + [id], extra, now) ==
              done[id := if Extendable(done, b, id, now) then done[id].(until := done[id].until + extra) else done[id]]
    ensures var done := ExtendAll(seats, b, ids, extra, now);
            ExtendCount(seats, b, ids + [id], extra, now) ==
            ExtendCount(seats, b, ids, extra, now) + if Extendable(done, b, id, now) then 1 else 0
  {
    assert (ids + [id])[..|ids|] == ids;
  }
}
