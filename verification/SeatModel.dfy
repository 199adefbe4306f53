/**
 What each Redis script of one showtime does to the seat hash and the
 `available` counter, as functions from the state before to the state after.

 The loops that compute these functions are in SeatStore; the run properties are
 in the modules that build on SeatRuns.
 */
module SeatModel {
  import opened Basics

  type SeatId = Str
  type BookingId = Str

  /** A field of the seat hash. A record in status `available` carries no booking id. */
  datatype Seat =
    | Available(seatType: Str)
    | Held(seatType: Str, owner: BookingId, until: int)
    | Booked(seatType: Str, owner: BookingId)

  type Seats = map<SeatId, Seat>

  // The seat types: standard, vip and couple.
  const STANDARD: Str := [115, 116, 97, 110, 100, 97, 114, 100]
  const VIP: Str := [118, 105, 112]
  const COUPLE: Str := [99, 111, 117, 112, 108, 101]

  datatype Store = Store(seats: Seats, available: int)

  datatype Request = Request(id: SeatId, seatType: Str)

  datatype Status = IsAvailable | IsHeld | IsBooked

  function StatusOf(seat: Seat): Status {
    match seat
    case Available(_) => IsAvailable
    case Held(_, _, _) => IsHeld
    case Booked(_, _) => IsBooked
  }

  predicate OwnedBy(seat: Seat, b: BookingId) {
    !seat.Available? && seat.owner == b
  }

  /** The strict rule of confirm, cleanup and read. */
  predicate Expired(seat: Seat, now: int) {
    seat.Held? && seat.until < now
  }

  /** The lenient rule of the two reserve scripts. */
  predicate Free(seat: Seat, now: int) {
    seat.Available? || (seat.Held? && seat.until <= now)
  }

  function Ids(reqs: seq<Request>): (ids: seq<SeatId>)
    ensures |ids| == |reqs|
    ensures forall i :: 0 <= i < |reqs| ==> ids[i] == reqs[i].id
  {
    seq(|reqs|, i requires 0 <= i < |reqs| => reqs[i].id)
  }

  /** The type given by the last request that names `k`. */
  function TypeFor(reqs: seq<Request>, k: SeatId): Str
    requires k in Ids(reqs)
  {
    var last := reqs[|reqs| - 1];
    if last.id == k then last.seatType else
      (assert k in Ids(reqs[..|reqs| - 1]) by {
        var i :| 0 <= i < |reqs| && Ids(reqs)[i] == k;
        assert Ids(reqs[..|reqs| - 1])[i] == k;
      }
      TypeFor(reqs[..|reqs| - 1], k))
  }

  // ----- reserve -----

  datatype Refusal = SeatNotFound | SeatBooked | SeatHeld(heldBy: BookingId)

  datatype UnavailableSeat = UnavailableSeat(id: SeatId, reason: Refusal)

  datatype InputError =
    | BookingIdRequired
    | HoldExpireNotPositive
    | SeatCountNotPositive
    | MissingSeat(index: nat)
    | BadSeatFormat(info: Str)
    | SeatIdRequired

  datatype ReserveReply =
    | Reserved(reserved: nat, bookingId: BookingId, expiresAt: int)
    | SeatsUnavailable(unavailable: seq<UnavailableSeat>)
    | ReserveInvalid(error: InputError)

  /** The verdict of the check phase on one requested seat. */
  function Check(seats: Seats, id: SeatId, now: int): Option<Refusal> {
    if id !in seats then Some(SeatNotFound)
    else match seats[id]
      case Booked(_, _) => Some(SeatBooked)
      case Held(_, owner, until) => if until > now then Some(SeatHeld(owner)) else None
      case Available(_) => None
  }

  function Refusals(seats: Seats, reqs: seq<Request>, now: int): seq<UnavailableSeat> {
    if reqs == [] then []
    else
      var n := |reqs| - 1;
      Refusals(seats, reqs[..n], now) +
      match Check(seats, reqs[n].id, now)
      case Some(reason) => [UnavailableSeat(reqs[n].id, reason)]
      case None => []
  }

  function HoldAll(seats: Seats, reqs: seq<Request>, b: BookingId, expire: int): Seats {
    map k | k in seats :: if k in Ids(reqs) then Held(TypeFor(reqs, k), b, expire) else seats[k]
  }

  /** How many entries of the list, repetitions included, name an available seat. */
  function AvailableEntries(seats: Seats, reqs: seq<Request>): nat {
    if reqs == [] then 0
    else
      var n := |reqs| - 1;
      AvailableEntries(seats, reqs[..n]) + if reqs[n].id in seats && seats[reqs[n].id].Available? then 1 else 0
  }

  function ReserveOutcome(s: Store, b: BookingId, expire: int, reqs: seq<Request>, now: int): ReserveReply {
    if b == [] then ReserveInvalid(BookingIdRequired)
    else if expire <= 0 then ReserveInvalid(HoldExpireNotPositive)
    else if reqs == [] then ReserveInvalid(SeatCountNotPositive)
    else
      var refusals := Refusals(s.seats, reqs, now);
      if refusals != [] then SeatsUnavailable(refusals) else Reserved(|reqs|, b, expire)
  }

  function ReserveStore(s: Store, b: BookingId, expire: int, reqs: seq<Request>, now: int): Store {
    if ReserveOutcome(s, b, expire, reqs, now).Reserved?
    then Store(HoldAll(s.seats, reqs, b, expire), s.available - AvailableEntries(s.seats, reqs))
    else s
  }

  datatype SingleReply = SingleReserved | SingleNotFound | SingleBooked | SingleHeld

  function ReserveOneOutcome(s: Store, r: Request, now: int): SingleReply {
    match Check(s.seats, r.id, now)
    case Some(SeatNotFound) => SingleNotFound
    case Some(SeatBooked) => SingleBooked
    case Some(SeatHeld(_)) => SingleHeld
    case None => SingleReserved
  }

  function ReserveOneStore(s: Store, b: BookingId, expire: int, r: Request, now: int): Store {
    if ReserveOneOutcome(s, r, now).SingleReserved?
    then Store(s.seats[r.id := Held(r.seatType, b, expire)],
               s.available - if s.seats[r.id].Available? then 1 else 0)
    else s
  }

  // ----- confirm and release -----

  datatype FailReason =
    | NotFound
    | NotHeld(current: Status)
    | WrongBooking(heldBy: Option<BookingId>)
    | HoldExpired

  datatype FailedSeat = FailedSeat(id: SeatId, reason: FailReason)

  /** Reply of confirm and of release: how many seats changed, and which entries did not. */
  datatype BatchReply =
    | BatchDone(changed: nat, failed: seq<FailedSeat>)
    | BatchInvalid(error: InputError)

  predicate BatchOk(r: BatchReply) {
    r.BatchDone? && r.failed == []
  }

  predicate Confirmable(seat: Seat, b: BookingId, now: int) {
    seat.Held? && seat.owner == b && !Expired(seat, now)
  }

  function ConfirmSeat(seat: Seat, b: BookingId, now: int): Seat {
    if Confirmable(seat, b, now) then Booked(seat.seatType, seat.owner) else seat
  }

  function ConfirmAll(seats: Seats, b: BookingId, ids: seq<SeatId>, now: int): Seats {
    map k | k in seats :: if k in ids then ConfirmSeat(seats[k], b, now) else seats[k]
  }

  function ConfirmVerdict(seats: Seats, b: BookingId, id: SeatId, now: int): Option<FailReason> {
    if id !in seats then Some(NotFound)
    else if !seats[id].Held? then Some(NotHeld(StatusOf(seats[id])))
    else if seats[id].owner != b then Some(WrongBooking(Some(seats[id].owner)))
    else if seats[id].until < now then Some(HoldExpired)
    else None
  }

  /** The failures in list order, each judged on the hash its predecessors left. */
  function ConfirmFailures(seats: Seats, b: BookingId, ids: seq<SeatId>, now: int): (f: seq<FailedSeat>)
    ensures |f| <= |ids|
  {
    if ids == [] then []
    else
      var n := |ids| - 1;
      ConfirmFailures(seats, b, ids[..n], now) +
      match ConfirmVerdict(ConfirmAll(seats, b, ids[..n], now), b, ids[n], now)
      case Some(reason) => [FailedSeat(ids[n], reason)]
      case None => []
  }

  function ConfirmOutcome(s: Store, b: BookingId, ids: seq<SeatId>, now: int): BatchReply {
    if b == [] then BatchInvalid(BookingIdRequired)
    else if ids == [] then BatchInvalid(SeatIdRequired)
    else
      var failed := ConfirmFailures(s.seats, b, ids, now);
      BatchDone(|ids| - |failed|, failed)
  }

  function ConfirmStore(s: Store, b: BookingId, ids: seq<SeatId>, now: int): Store {
    if b == [] then s else s.(seats := ConfirmAll(s.seats, b, ids, now))
  }

  function ReleaseSeat(seat: Seat, b: BookingId): Seat {
    if OwnedBy(seat, b) then Available(seat.seatType) else seat
  }

  function ReleaseAll(seats: Seats, b: BookingId, ids: seq<SeatId>): Seats {
    map k | k in seats :: if k in ids then ReleaseSeat(seats[k], b) else seats[k]
  }

  function ReleaseVerdict(seats: Seats, b: BookingId, id: SeatId): Option<FailReason> {
    if id !in seats then Some(NotFound)
    else if !OwnedBy(seats[id], b)
    then Some(WrongBooking(if seats[id].Available? then None else Some(seats[id].owner)))
    else None
  }

  function ReleaseFailures(seats: Seats, b: BookingId, ids: seq<SeatId>): (f: seq<FailedSeat>)
    ensures |f| <= |ids|
  {
    if ids == [] then []
    else
      var n := |ids| - 1;
      ReleaseFailures(seats, b, ids[..n]) +
      match ReleaseVerdict(ReleaseAll(seats, b, ids[..n]), b, ids[n])
      case Some(reason) => [FailedSeat(ids[n], reason)]
      case None => []
  }

  function ReleaseOutcome(s: Store, b: BookingId, ids: seq<SeatId>): BatchReply {
    if b == [] then BatchInvalid(BookingIdRequired)
    else if ids == [] then BatchInvalid(SeatIdRequired)
    else
      var failed := ReleaseFailures(s.seats, b, ids);
      BatchDone(|ids| - |failed|, failed)
  }

  function ReleaseStore(s: Store, b: BookingId, ids: seq<SeatId>): Store {
    if b == [] then s
    else Store(ReleaseAll(s.seats, b, ids), s.available + |ids| - |ReleaseFailures(s.seats, b, ids)|)
  }

  // ----- cleanup and read -----

  function CleanSeat(seat: Seat, now: int): Seat {
    if Expired(seat, now) then Available(seat.seatType) else seat
  }

  function ExpiredAmong(seats: Seats, ids: set<SeatId>, now: int): set<SeatId> {
    set k | k in seats && k in ids && Expired(seats[k], now)
  }

  function CleanAmong(seats: Seats, ids: set<SeatId>, now: int): Seats {
    map k | k in seats :: if k in ids then CleanSeat(seats[k], now) else seats[k]
  }

  /** An entry of the cleanup reply. */
  datatype ExpiredSeat = ExpiredSeat(id: SeatId, previousBooking: BookingId, expiredAt: int)

  function ExpiredRecord(seats: Seats, k: SeatId): ExpiredSeat
    requires k in seats && seats[k].Held?
  {
    ExpiredSeat(k, seats[k].owner, seats[k].until)
  }

  /** `records` reports exactly the expired holds among `ids`, each once. */
  ghost predicate Reports(records: seq<ExpiredSeat>, seats: Seats, ids: set<SeatId>, now: int) {
    && |records| == |ExpiredAmong(seats, ids, now)|
    && (forall r :: r in records ==> r.id in ExpiredAmong(seats, ids, now) && r == ExpiredRecord(seats, r.id))
    && (forall k :: k in ExpiredAmong(seats, ids, now) ==> ExpiredRecord(seats, k) in records)
  }

  /** Frees the expired holds among `ids`; the cleanup script and a full read take every field. */
  function CleanStore(s: Store, ids: set<SeatId>, now: int): Store {
    Store(CleanAmong(s.seats, ids, now), s.available + |ExpiredAmong(s.seats, ids, now)|)
  }

  function CleanupStore(s: Store, now: int): Store {
    CleanStore(s, s.seats.Keys, now)
  }

  /** A seat as a status read reports it; `remaining` is set on live holds. */
  datatype SeatView = SeatView(seat: Seat, remaining: Option<int>)

  function ViewOf(seat: Seat, now: int): SeatView {
    SeatView(seat, if seat.Held? then Some(seat.until - now) else None)
  }

  datatype StatusReply = StatusReply(
    seats: map<SeatId, SeatView>,
    availableCount: int,
    totalSeats: nat,
    expiredCleaned: nat)

  function Views(seats: Seats, ids: set<SeatId>, now: int): map<SeatId, SeatView> {
    map k | k in seats && k in ids :: ViewOf(seats[k], now)
  }

  function ReadOutcome(s: Store, ids: set<SeatId>, now: int): StatusReply {
    var after := CleanStore(s, ids, now);
    StatusReply(Views(after.seats, ids, now),
                after.available, |after.seats|, |ExpiredAmong(s.seats, ids, now)|)
  }

  // ----- extend -----

  /** A hold expiry after `n` extensions by `extra`, each refused once the hold has run out. */
  function ExtendTimes(until: int, extra: int, now: int, n: nat): int {
    if n == 0 then until
    else
      var u := ExtendTimes(until, extra, now, n - 1);
      if u > now then u + extra else u
  }

  function ExtendSeat(seat: Seat, b: BookingId, extra: int, now: int, n: nat): Seat {
    if seat.Held? && seat.owner == b then seat.(until := ExtendTimes(seat.until, extra, now, n)) else seat
  }

  function Mentions(ids: seq<SeatId>, k: SeatId): nat {
    if ids == [] then 0
    else Mentions(ids[..|ids| - 1], k) + if ids[|ids| - 1] == k then 1 else 0
  }

  function ExtendAll(seats: Seats, b: BookingId, ids: seq<SeatId>, extra: int, now: int): Seats {
    map k | k in seats :: ExtendSeat(seats[k], b, extra, now, Mentions(ids, k))
  }

  predicate Extendable(seats: Seats, b: BookingId, id: SeatId, now: int) {
    id in seats && seats[id].Held? && seats[id].owner == b && seats[id].until > now
  }

  function ExtendCount(seats: Seats, b: BookingId, ids: seq<SeatId>, extra: int, now: int): nat {
    if ids == [] then 0
    else
      var n := |ids| - 1;
      ExtendCount(seats, b, ids[..n], extra, now) +
      if Extendable(ExtendAll(seats, b, ids[..n], extra, now), b, ids[n], now) then 1 else 0
  }

  function ExtendStore(s: Store, b: BookingId, ids: seq<SeatId>, extra: int, now: int): Store {
    s.(seats := ExtendAll(s.seats, b, ids, extra, now))
  }

  // ----- initialisation -----

  /** Starting an empty showtime: every listed seat available, the counter at the list's length. */
  function InitStore(list: seq<Request>): Store {
    Store(map k | k in Ids(list) :: Available(TypeFor(list, k)), |list|)
  }

  /** `initializeShowtime`: skipped when seats exist, unless told to overwrite them. */
  function InitializeStore(s: Store, list: seq<Request>, overwrite: bool): Store {
    if !overwrite && s.seats != map[] then s else InitStore(list)
  }

  function AvailableSet(seats: Seats): set<SeatId> {
    set k | k in seats && seats[k].Available?
  }
}
